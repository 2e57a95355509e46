/** Signers of an APK Signature Scheme block: their nested length-prefixed encoding, and their verification. */
module Signers {
  import opened Bytes

  // ---- length-prefixed fields ----

  datatype Field = Field(value: seq<Byte>, rest: seq<Byte>)

  function ReadPrefixed(buf: seq<Byte>): (r: Option<Field>)
    ensures r.Some? ==> |r.value.value| + 4 + |r.value.rest| == |buf|
  {
    if |buf| < 4 || 4 + Le32(buf, 0) > |buf| then None
    else Some(Field(buf[4..4 + Le32(buf, 0)], buf[4 + Le32(buf, 0)..]))
  }

  predicate Short(x: seq<Byte>) { |x| < 0x1_0000_0000 }

  function Prefixed(x: seq<Byte>): (r: seq<Byte>)
    requires Short(x)
    ensures |r| == 4 + |x|
  {
    Put32(|x|) + x
  }

  lemma PrefixedReadBack(x: seq<Byte>, rest: seq<Byte>)
    requires Short(x)
    ensures ReadPrefixed(Prefixed(x) + rest) == Some(Field(x, rest))
  {
    hide Put32;
    var buf := Prefixed(x) + rest;
    assert buf[0..4] == Put32(|x|);
    Le32Slice(buf, 0, 4, 0);
    assert buf[4..4 + |x|] == x && buf[4 + |x|..] == rest;
  }

  /** The fields of a sequence, up to the end or the first one that does not fit. */
  function Items(buf: seq<Byte>): seq<seq<Byte>>
    decreases |buf|
  {
    var f := ReadPrefixed(buf);
    if f.None? then [] else [f.value.value] + Items(f.value.rest)
  }

  function EncodeItems(xs: seq<seq<Byte>>): seq<Byte>
    requires forall x :: x in xs ==> Short(x)
  {
    if xs == [] then [] else Prefixed(xs[0]) + EncodeItems(xs[1..])
  }

  lemma {:induction false} ItemsReadBack(xs: seq<seq<Byte>>)
    requires forall x :: x in xs ==> Short(x)
    ensures Items(EncodeItems(xs)) == xs
  {
    if xs != [] {
      PrefixedReadBack(xs[0], EncodeItems(xs[1..]));
      ItemsReadBack(xs[1..]);
    }
  }

  // ---- certificates ----

  function NonEmpty(xs: seq<seq<Byte>>): seq<seq<Byte>> {
    if xs == [] then [] else (if xs[0] == [] then [] else [xs[0]]) + NonEmpty(xs[1..])
  }

  const DER_SEQUENCE := 0x30

  /** The certificates after the digests; a sequence without usable fields may itself be one certificate. */
  function Certificates(signedData: seq<Byte>): seq<seq<Byte>> {
    var digests := ReadPrefixed(signedData);
    if digests.None? then []
    else
      var certs := ReadPrefixed(digests.value.rest);
      if certs.None? || certs.value.value == [] then []
      else
        var found := NonEmpty(Items(certs.value.value));
        if found == [] && certs.value.value[0] == DER_SEQUENCE then [certs.value.value] else found
  }

  method CertificatesFromSignedData(signedData: seq<Byte>) returns (out: seq<seq<Byte>>)
    ensures out == Certificates(signedData)
  {
    hide ReadPrefixed;
    var digests := ReadPrefixed(signedData);
    if digests.None? { return []; }
    var certs := ReadPrefixed(digests.value.rest);
    if certs.None? || |certs.value.value| == 0 { return []; }
    var certsSeq := certs.value.value;
    out := [];
    var buf := certsSeq;
    while |buf| > 0
      invariant out + NonEmpty(Items(buf)) == NonEmpty(Items(certsSeq))
      decreases |buf|
    {
      var f := ReadPrefixed(buf);
      if f.None? { break; }
      FieldIsShorter(buf);
      assert Items(buf)[1..] == Items(f.value.rest);
      if |f.value.value| > 0 {
        out := out + [f.value.value];
      }
      buf := f.value.rest;
    }
    NoItems(buf);
    if |out| == 0 && certsSeq[0] == DER_SEQUENCE {
      out := [certsSeq];
    }
  }

  lemma FieldIsShorter(buf: seq<Byte>)
    ensures ReadPrefixed(buf).Some? ==> |ReadPrefixed(buf).value.rest| < |buf|
  {
  }

  lemma NoItems(buf: seq<Byte>)
    ensures buf == [] || ReadPrefixed(buf).None? ==> Items(buf) == []
  {
  }

  // ---- signers ----

  datatype Signer = Signer(signedData: seq<Byte>, signatures: seq<Byte>, publicKey: seq<Byte>, certs: seq<seq<Byte>>)

  /** One signer; in v3 eight bytes of SDK range stand before the signatures. */
  function SignerOf(content: seq<Byte>, v3: bool): Option<Signer> {
    var signedData := ReadPrefixed(content);
    if signedData.None? || (v3 && |signedData.value.rest| < 8) then None
    else
      var signatures := ReadPrefixed(if v3 then signedData.value.rest[8..] else signedData.value.rest);
      if signatures.None? then None
      else
        var publicKey := ReadPrefixed(signatures.value.rest);
        if publicKey.None? then None
        else Some(Signer(signedData.value.value, signatures.value.value, publicKey.value.value,
                         Certificates(signedData.value.value)))
  }

  /** The signers up to the first malformed one. */
  function SignersIn(items: seq<seq<Byte>>, v3: bool): seq<Signer> {
    if items == [] || SignerOf(items[0], v3).None? then []
    else [SignerOf(items[0], v3).value] + SignersIn(items[1..], v3)
  }

  function SignerList(value: seq<Byte>, v3: bool): seq<Signer> {
    var signers := ReadPrefixed(value);
    if signers.None? then [] else SignersIn(Items(signers.value.value), v3)
  }

  method ParseSigner(content: seq<Byte>, v3: bool) returns (r: Option<Signer>)
    ensures r == SignerOf(content, v3)
  {
    hide ReadPrefixed, Certificates;
    var signedData := ReadPrefixed(content);
    if signedData.None? { return None; }
    var fields := signedData.value.rest;
    if v3 {
      if |fields| < 8 { return None; }
      fields := fields[8..];
    }
    var signatures := ReadPrefixed(fields);
    if signatures.None? { return None; }
    var publicKey := ReadPrefixed(signatures.value.rest);
    if publicKey.None? { return None; }
    var certs := CertificatesFromSignedData(signedData.value.value);
    r := Some(Signer(signedData.value.value, signatures.value.value, publicKey.value.value, certs));
  }

  method ParseSchemeSignerList(value: seq<Byte>, v3: bool) returns (out: seq<Signer>)
    ensures out == SignerList(value, v3)
  {
    hide ReadPrefixed, SignerOf;
    var signers := ReadPrefixed(value);
    if signers.None? { return []; }
    out := [];
    var buf := signers.value.value;
    while |buf| > 0
      invariant out + SignersIn(Items(buf), v3) == SignersIn(Items(signers.value.value), v3)
      decreases |buf|
    {
      var f := ReadPrefixed(buf);
      if f.None? { break; }
      FieldIsShorter(buf);
      assert Items(buf)[1..] == Items(f.value.rest);
      var signer := ParseSigner(f.value.value, v3);
      if signer.None? { return; }
      out := out + [signer.value];
      buf := f.value.rest;
    }
    NoItems(buf);
  }

  // ---- encoding signers ----

  /** A signer to be written: digest records, certificates, attributes, and the fields around them. */
  datatype SignerSource = SignerSource(
    digests: seq<seq<Byte>>, certs: seq<seq<Byte>>, attributes: seq<Byte>,
    sdkRange: seq<Byte>, signatures: seq<seq<Byte>>, publicKey: seq<Byte>, trailer: seq<Byte>)

  predicate SourceFits(s: SignerSource) {
    && (forall x :: x in s.digests ==> Short(x)) && (forall x :: x in s.certs ==> Short(x))
    && (forall x :: x in s.signatures ==> Short(x)) && Short(s.publicKey) && |s.sdkRange| == 8
    && Short(EncodeItems(s.digests)) && Short(EncodeItems(s.certs)) && Short(EncodeItems(s.signatures))
    && Short(SignedData(s))
  }

  function SignedData(s: SignerSource): seq<Byte>
    requires (forall x :: x in s.digests ==> Short(x)) && (forall x :: x in s.certs ==> Short(x))
    requires Short(EncodeItems(s.digests)) && Short(EncodeItems(s.certs))
  {
    Prefixed(EncodeItems(s.digests)) + (Prefixed(EncodeItems(s.certs)) + s.attributes)
  }

  function EncodeSigner(s: SignerSource, v3: bool): seq<Byte>
    requires SourceFits(s)
  {
    Prefixed(SignedData(s))
    + ((if v3 then s.sdkRange else []) + (Prefixed(EncodeItems(s.signatures)) + (Prefixed(s.publicKey) + s.trailer)))
  }

  /** The parsed form of a source: its certificates without the empty ones. */
  function SignerFrom(s: SignerSource): Signer
    requires SourceFits(s)
  {
    Signer(SignedData(s), EncodeItems(s.signatures), s.publicKey, NonEmpty(s.certs))
  }

  /** A certificate sequence of length-prefixed fields is never taken for a bare certificate. */
  lemma EmptyFieldsAreNotDer(certs: seq<seq<Byte>>)
    requires (forall x :: x in certs ==> Short(x)) && NonEmpty(certs) == [] && certs != []
    ensures EncodeItems(certs) != [] && EncodeItems(certs)[0] != DER_SEQUENCE
  {
    assert certs[0] == [];
    assert Put32(0)[0] == 0;
  }

  lemma CertificatesReadBack(s: SignerSource)
    requires SourceFits(s)
    ensures Certificates(SignedData(s)) == NonEmpty(s.certs)
  {
    hide Prefixed, ReadPrefixed;
    PrefixedReadBack(EncodeItems(s.digests), Prefixed(EncodeItems(s.certs)) + s.attributes);
    PrefixedReadBack(EncodeItems(s.certs), s.attributes);
    ItemsReadBack(s.certs);
    if s.certs != [] && NonEmpty(s.certs) == [] {
      EmptyFieldsAreNotDer(s.certs);
    }
  }

  lemma SignerReadBack(s: SignerSource, v3: bool)
    requires SourceFits(s)
    ensures SignerOf(EncodeSigner(s, v3), v3) == Some(SignerFrom(s))
  {
    hide Prefixed, ReadPrefixed, EncodeItems, Certificates, SignedData;
    var keyed := Prefixed(s.publicKey) + s.trailer;
    var signed := Prefixed(EncodeItems(s.signatures)) + keyed;
    var ranged := (if v3 then s.sdkRange else []) + signed;
    PrefixedReadBack(SignedData(s), ranged);
    assert (if v3 then ranged[8..] else ranged) == signed;
    PrefixedReadBack(EncodeItems(s.signatures), keyed);
    PrefixedReadBack(s.publicKey, s.trailer);
    CertificatesReadBack(s);
  }

  predicate ListFits(sources: seq<SignerSource>, v3: bool) {
    && (forall s :: s in sources ==> SourceFits(s) && Short(EncodeSigner(s, v3)))
    && Short(EncodeItems(SignerFields(sources, v3)))
  }

  function SignerFields(sources: seq<SignerSource>, v3: bool): (r: seq<seq<Byte>>)
    requires forall s :: s in sources ==> SourceFits(s) && Short(EncodeSigner(s, v3))
    ensures |r| == |sources| && forall x :: x in r ==> Short(x)
  {
    seq(|sources|, i requires 0 <= i < |sources| => EncodeSigner(sources[i], v3))
  }

  lemma {:induction false} SignersReadBack(sources: seq<SignerSource>, v3: bool)
    requires forall s :: s in sources ==> SourceFits(s) && Short(EncodeSigner(s, v3))
    ensures |SignersIn(SignerFields(sources, v3), v3)| == |sources|
    ensures forall i :: 0 <= i < |sources| ==> SignersIn(SignerFields(sources, v3), v3)[i] == SignerFrom(sources[i])
  {
    hide SignerOf, EncodeSigner, SignerFrom, SourceFits;
    if sources != [] {
      assert SignerFields(sources, v3)[1..] == SignerFields(sources[1..], v3);
      assert SourceFits(sources[0]);
      SignerReadBack(sources[0], v3);
      SignersReadBack(sources[1..], v3);
    }
  }

  /** Parsing undoes the nested encoding, with v3's eight extra bytes and without. */
  lemma ListReadBack(sources: seq<SignerSource>, v3: bool, trailer: seq<Byte>)
    requires ListFits(sources, v3)
    ensures var signers := SignerList(Prefixed(EncodeItems(SignerFields(sources, v3))) + trailer, v3);
            |signers| == |sources| && forall i :: 0 <= i < |sources| ==> signers[i] == SignerFrom(sources[i])
  {
    hide Prefixed, ReadPrefixed, EncodeItems, SignersIn, SignerFields, SourceFits, SignerFrom;
    PrefixedReadBack(EncodeItems(SignerFields(sources, v3)), trailer);
    ItemsReadBack(SignerFields(sources, v3));
    SignersReadBack(sources, v3);
  }
}
