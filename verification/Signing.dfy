/** The signing material of an APK, from the file's bytes to the verdict. */
module Signing {
  import opened Bytes
  import opened ContentDigest
  import opened Signers
  import opened SigningBlock
  import opened Verify

  /** A scheme: the id of its pair, and whether its signers carry v3's extra fields. */
  datatype Format = Format(id: U32, v3: bool)

  /** The schemes, preferred ones first. */
  const FORMATS: seq<Format> := [Format(0x1b93ad61, true), Format(0xf05368c0, true), Format(0x7109871a, false)]

  /** The signers under a scheme; none if there is no such pair or no signer can be read. */
  function SignersOf(pairs: map<U32, seq<Byte>>, f: Format): seq<Signer> {
    if f.id in pairs then SignerList(pairs[f.id], f.v3) else []
  }

  /** The first scheme with signers. */
  function Preferred(pairs: map<U32, seq<Byte>>, formats: seq<Format>): Option<Format> {
    if formats == [] then None
    else if SignersOf(pairs, formats[0]) != [] then Some(formats[0])
    else Preferred(pairs, formats[1..])
  }

  datatype Material = Unsigned | Signed(format: Format, signers: seq<Signer>, verified: bool, note: Note)

  datatype Inspection = Inspected(material: Material) | Crashed

  /** What a file's signing material has to be: that of the first scheme with signers, verified exactly if all of
      them are genuine. */
  predicate Right(c: Crypto, file: seq<Byte>, block: Block, m: Material) {
    match Preferred(block.pairs, FORMATS)
    case None => m == Unsigned
    case Some(f) =>
      && m.Signed? && m.format == f && m.signers == SignersOf(block.pairs, f)
      && (m.verified <==> forall s :: s in m.signers ==> Genuine(c, file, block, s))
      && (m.verified <==> m.note == Verified)
  }

  method InspectAPKSigningMaterial(c: Crypto, file: seq<Byte>) returns (r: Inspection)
    ensures r.Crashed? <==> Locate(file).Panic?
    ensures r.Inspected? ==> Right(c, file, Locate(file).block, r.material)
  {
    hide Locate, SignerList, Genuine;
    var located := ReadAPKSigningBlockInfo(file);
    if located.Panic? { return Crashed; }
    var block := located.block;
    for i := 0 to |FORMATS|
      invariant Preferred(block.pairs, FORMATS) == Preferred(block.pairs, FORMATS[i..])
    {
      var f := FORMATS[i];
      assert FORMATS[i..][0] == f && FORMATS[i..][1..] == FORMATS[i + 1..];
      if f.id !in block.pairs { continue; }
      var signers := ParseSchemeSignerList(block.pairs[f.id], f.v3);
      if |signers| == 0 { continue; }
      var verified, note := VerifySchemeSigners(c, file, block, signers);
      return Inspected(Signed(f, signers, verified, note));
    }
    r := Inspected(Unsigned);
  }

  // ---- from signing to the verdict ----

  /** A source whose first supported signature record and whose first digest record for that algorithm are right
      for a file cut into these pieces. */
  predicate Signs(c: Crypto, s: SignerSource, pieces: seq<seq<Byte>>)
    requires SourceFits(s)
  {
    var signature := FirstRecord(s.signatures, IS_SUPPORTED);
    && signature.Some? && AlgorithmOf(signature.value.id).Some?
    && var alg := AlgorithmOf(signature.value.id).value;
       var h := c.hash(alg.hash);
    && FirstRecord(s.digests, (id: U32) => id == alg.id).Some?
    && FirstRecord(s.digests, (id: U32) => id == alg.id).value.payload == h(TopInput(h, pieces))
    && c.keyKind(s.publicKey).Some? && KeyMatches(c.keyKind(s.publicKey).value, alg.scheme)
    && c.signatureOk(alg, s.publicKey, SignedData(s), signature.value.payload)
  }

  lemma RecordsReadBack(s: SignerSource, id: U32)
    requires SourceFits(s)
    ensures Signature(SignerFrom(s).signatures) == FirstRecord(s.signatures, IS_SUPPORTED)
    ensures DigestFor(SignerFrom(s).signedData, id) == FirstRecord(s.digests, (x: U32) => x == id)
  {
    hide FirstRecord, Items, EncodeItems, Prefixed, ReadPrefixed;
    ItemsReadBack(s.signatures);
    ItemsReadBack(s.digests);
    PrefixedReadBack(EncodeItems(s.digests), Prefixed(EncodeItems(s.certs)) + s.attributes);
  }

  /** A signer read back from its source is genuine exactly if the source signs what the file protects. */
  lemma GenuineExactly(c: Crypto, file: seq<Byte>, block: Block, s: SignerSource)
    requires SourceFits(s) && HashedPieces(file, block).Some?
    ensures Genuine(c, file, block, SignerFrom(s)) <==> Signs(c, s, HashedPieces(file, block).value)
  {
    var signature := FirstRecord(s.signatures, IS_SUPPORTED);
    RecordsReadBack(s, 0);
    if signature.Some? && AlgorithmOf(signature.value.id).Some? {
      RecordsReadBack(s, AlgorithmOf(signature.value.id).value.id);
    }
    hide FirstRecord, Signature, DigestFor, AlgorithmOf, TopInput, HashedPieces, SignedData, EncodeItems, SourceFits;
  }

  /** The parts of an assembled file that the digest covers. */
  lemma PiecesOfAssembly(contents: seq<Byte>, block: seq<Byte>, directory: seq<Byte>, eocd: seq<Byte>, b: Block)
    requires b.offset == |contents| && b.cdOffset == |contents| + |block| && b.eocdOffset == b.cdOffset + |directory|
    requires b.eocd == eocd
    ensures HashedPieces(contents + block + directory + eocd, b)
         == Some(AllPieces(contents, directory, Patched(eocd, |contents|)))
  {
    hide AllPieces, Patched;
    var file := contents + block + directory + eocd;
    assert file[0..|contents|] == contents;
    assert file[b.cdOffset..b.cdOffset + |directory|] == directory;
  }

  /** The last preferred scheme among several, when the others have no pair. */
  lemma {:induction false} PreferredAt(pairs: map<U32, seq<Byte>>, formats: seq<Format>, j: nat)
    requires j < |formats| && SignersOf(pairs, formats[j]) != []
    requires forall i :: 0 <= i < j ==> SignersOf(pairs, formats[i]) == []
    ensures Preferred(pairs, formats) == Some(formats[j])
  {
    hide SignersOf;
    if j > 0 {
      assert forall i :: 0 <= i < j - 1 ==> formats[1..][i] == formats[i + 1];
      PreferredAt(pairs, formats[1..], j - 1);
    }
  }

  /** A file put together from contents, a signing block, a directory and an end record: the signers written under
      one scheme, none under a preferred one, are found, and the file verifies exactly if each of them signs the
      contents, the directory, and the end record with its offset replaced. */
  lemma SignedFilesVerifyExactly(
    c: Crypto, contents: seq<Byte>, ps: seq<Pair>, directory: seq<Byte>, ignored: seq<Byte>, comment: seq<Byte>,
    j: nat, k: nat, sources: seq<SignerSource>, trailer: seq<Byte>, m: Material)
    requires BlockFits(ps) && |contents| + |EncodeBlock(ps)| < TWO32
    requires |ignored| == 12 && |comment| < 0x1_0000
    requires NoLaterSignature(EndRecord(ignored, |contents| + |EncodeBlock(ps)|, comment))
    requires j < |FORMATS| && k < |ps| && Distinct(ps) && sources != [] && ListFits(sources, FORMATS[j].v3)
    requires ps[k] == Pair(FORMATS[j].id, Prefixed(EncodeItems(SignerFields(sources, FORMATS[j].v3))) + trailer)
    requires forall i, q :: 0 <= i < j && 0 <= q < |ps| ==> ps[q].id != FORMATS[i].id
    requires var eocd := EndRecord(ignored, |contents| + |EncodeBlock(ps)|, comment);
             var file := contents + EncodeBlock(ps) + directory + eocd;
             Locate(file).Found? ==> Right(c, file, Locate(file).block, m)
    ensures var eocd := EndRecord(ignored, |contents| + |EncodeBlock(ps)|, comment);
            && m.Signed? && m.format == FORMATS[j] && |m.signers| == |sources|
            && (m.verified <==> forall s :: s in sources ==>
                  SourceFits(s) && Signs(c, s, AllPieces(contents, directory, Patched(eocd, |contents|))))
  {
    var eocd := EndRecord(ignored, |contents| + |EncodeBlock(ps)|, comment);
    var file := contents + EncodeBlock(ps) + directory + eocd;
    LocateUndoesAssembly(contents, ps, directory, ignored, comment);
    var block := Locate(file).block;
    PiecesOfAssembly(contents, EncodeBlock(ps), directory, eocd, block);
    hide EndRecord, EncodeBlock, NoLaterSignature, Locate, BlockFits;
    SchemeFound(block.pairs, ps, j, k, sources, trailer);
    EachIsGenuine(c, file, block, sources, SignersOf(block.pairs, FORMATS[j]));
  }

  lemma SchemeFound(pairs: map<U32, seq<Byte>>, ps: seq<Pair>, j: nat, k: nat, sources: seq<SignerSource>,
      trailer: seq<Byte>)
    requires pairs == Collect(map[], ps) && Distinct(ps)
    requires j < |FORMATS| && k < |ps| && sources != [] && ListFits(sources, FORMATS[j].v3)
    requires ps[k] == Pair(FORMATS[j].id, Prefixed(EncodeItems(SignerFields(sources, FORMATS[j].v3))) + trailer)
    requires forall i, q :: 0 <= i < j && 0 <= q < |ps| ==> ps[q].id != FORMATS[i].id
    ensures Preferred(pairs, FORMATS) == Some(FORMATS[j])
    ensures var signers := SignersOf(pairs, FORMATS[j]);
            |signers| == |sources| && forall i :: 0 <= i < |sources| ==>
                SourceFits(sources[i]) && signers[i] == SignerFrom(sources[i])
  {
    hide Collect, SignerList, EncodeItems, SignerFields, SourceFits, SignerFrom;
    CollectDistinct(map[], ps, k);
    ListReadBack(sources, FORMATS[j].v3, trailer);
    forall i | 0 <= i < j ensures SignersOf(pairs, FORMATS[i]) == [] {
      CollectAdds(map[], ps, FORMATS[i].id);
    }
    PreferredAt(pairs, FORMATS, j);
  }

  lemma EachIsGenuine(c: Crypto, file: seq<Byte>, block: Block, sources: seq<SignerSource>, signers: seq<Signer>)
    requires |signers| == |sources| && HashedPieces(file, block).Some?
    requires forall i :: 0 <= i < |sources| ==> SourceFits(sources[i]) && signers[i] == SignerFrom(sources[i])
    ensures (forall s :: s in signers ==> Genuine(c, file, block, s))
       <==> forall s :: s in sources ==> SourceFits(s) && Signs(c, s, HashedPieces(file, block).value)
  {
    hide Genuine, Signs, SourceFits, SignerFrom, HashedPieces;
    forall i | 0 <= i < |sources|
      ensures Genuine(c, file, block, signers[i]) <==> Signs(c, sources[i], HashedPieces(file, block).value)
    {
      GenuineExactly(c, file, block, sources[i]);
    }
    assert forall i :: 0 <= i < |sources| ==> sources[i] in sources && signers[i] in signers;
  }
}
