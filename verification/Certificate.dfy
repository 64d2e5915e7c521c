/** Which bytes of a certificate its fingerprint covers. */
module Certificate {
  import opened Paths
  import opened Der
  import opened X690

  const SEQUENCE: byte := 0x30
  const INTEGER: byte := 0x02
  const BIT_STRING: byte := 0x03
  const EXPLICIT_VERSION: byte := 0xa0
  /** Serial, signature, issuer, validity and subject. */
  const FIELDS_BEFORE_KEY: nat := 5

  datatype Field = Field(tag: byte, value: seq<byte>)

  predicate AllFit(fields: seq<Field>) {
    forall i | 0 <= i < |fields| :: Addressable(fields[i].value)
  }

  function EncodeAll(fields: seq<Field>): seq<byte>
    requires AllFit(fields)
  {
    if fields == [] then [] else Encode(fields[0].tag, fields[0].value) + EncodeAll(fields[1..])
  }

  /** The parts a certificate is read as; `extensions` and `signature` are whatever follows. */
  datatype Parts = Parts(
    version: Option<seq<byte>>, fields: seq<Field>, key: seq<byte>, extensions: seq<byte>, signature: seq<byte>)

  predicate PartsFit(c: Parts) {
    && (c.version.Some? ==> Addressable(c.version.value)) && AllFit(c.fields)
    && Addressable(c.key) && Addressable(Tbs(c)) && Addressable(Encode(SEQUENCE, Tbs(c)) + c.signature)
  }

  /** A version is recognised by its tag alone, so without one the serial may not carry that tag. */
  ghost predicate WellShaped(c: Parts) {
    && |c.fields| == FIELDS_BEFORE_KEY && PartsFit(c)
    && (c.version.None? ==> c.fields[0].tag != EXPLICIT_VERSION)
  }

  function VersionBytes(c: Parts): seq<byte>
    requires c.version.Some? ==> Addressable(c.version.value)
  {
    if c.version.None? then [] else Encode(EXPLICIT_VERSION, c.version.value)
  }

  function KeyInfo(c: Parts): seq<byte>
    requires Addressable(c.key)
  {
    Encode(SEQUENCE, c.key)
  }

  function Tbs(c: Parts): seq<byte>
    requires c.version.Some? ==> Addressable(c.version.value)
    requires AllFit(c.fields) && Addressable(c.key)
  {
    VersionBytes(c) + (EncodeAll(c.fields) + (KeyInfo(c) + c.extensions))
  }

  function Written(c: Parts): seq<byte>
    requires PartsFit(c)
  {
    Encode(SEQUENCE, Encode(SEQUENCE, Tbs(c)) + c.signature)
  }

  function Skip(b: seq<byte>, count: nat): Option<seq<byte>> {
    if count == 0 then Some(b)
    else if Parse(b).None? then None
    else Skip(Parse(b).value.rest, count - 1)
  }

  function AfterVersion(tbs: seq<byte>): Option<seq<byte>> {
    if tbs == [] || tbs[0] != EXPLICIT_VERSION then Some(tbs) else Skip(tbs, 1)
  }

  /** The subject public key info the certificate's fingerprint is taken of. */
  function FingerprintedKey(certificate: seq<byte>): Option<seq<byte>> {
    var whole := Parse(certificate);
    if whole.None? || whole.value.tag != SEQUENCE || whole.value.rest != [] then None else
    var tbs := Parse(whole.value.value);
    if tbs.None? || tbs.value.tag != SEQUENCE then None else
    var fields := AfterVersion(tbs.value.value);
    if fields.None? then None else
    var start := Skip(fields.value, FIELDS_BEFORE_KEY);
    if start.None? then None else
    var key := Parse(start.value);
    if key.None? || key.value.tag != SEQUENCE then None
    else Some(start.value[..|start.value| - |key.value.rest|])
  }

  /** Fields one after the other, each under its own identifier. */
  function FieldsBytes(fields: seq<Field>): seq<byte>
    requires AllFit(fields)
  {
    if fields == [] then [] else Tlv(fields[0].tag, fields[0].value) + FieldsBytes(fields[1..])
  }

  /** A universal constructed SEQUENCE, number 16. */
  function SequenceBytes(contents: seq<byte>): (r: seq<byte>)
    requires Addressable(contents)
    ensures |r| <= |contents| + 10
  {
    Tlv(Identifier(Universal, true, 16), contents)
  }

  /** The version, if there is one, is the context-specific constructed element number 0. */
  function TbsBytes(c: Parts): seq<byte>
    requires c.version.Some? ==> Addressable(c.version.value)
    requires AllFit(c.fields) && Addressable(c.key)
  {
    (if c.version.None? then [] else Tlv(Identifier(ContextSpecific, true, 0), c.version.value))
    + FieldsBytes(c.fields) + SequenceBytes(c.key) + c.extensions
  }

  predicate Encodable(c: Parts) {
    && (c.version.Some? ==> Addressable(c.version.value)) && AllFit(c.fields) && Addressable(c.key)
    && Addressable(TbsBytes(c)) && Addressable(SequenceBytes(TbsBytes(c)) + c.signature)
  }

  /** A certificate in the terms of X.690 and of section 4.1 of RFC 5280. */
  function CertificateBytes(c: Parts): seq<byte>
    requires Encodable(c)
  {
    SequenceBytes(SequenceBytes(TbsBytes(c)) + c.signature)
  }

  /**
   * Five fields come before the key. A version is told by its identifier, so without one the serial may
   * not carry that identifier.
   */
  predicate Shaped(c: Parts) {
    && Encodable(c) && |c.fields| == 5
    && (c.version.None? ==> c.fields[0].tag != Identifier(ContextSpecific, true, 0))
  }

  lemma {:induction false} FieldsAre(fields: seq<Field>)
    requires AllFit(fields)
    ensures EncodeAll(fields) == FieldsBytes(fields)
  {
    hide Encode, Tlv;
    if fields != [] {
      EncodeIsTlv(fields[0].tag, fields[0].value);
      FieldsAre(fields[1..]);
    }
  }

  /** The shape the reader and the writer go by is this one. */
  lemma ShapeIs(c: Parts)
    ensures WellShaped(c) <==> Shaped(c)
    ensures Shaped(c) ==> Written(c) == CertificateBytes(c) && KeyInfo(c) == SequenceBytes(c.key)
  {
    hide Encode, Tlv, EncodeAll, FieldsBytes;
    if (c.version.Some? ==> Addressable(c.version.value)) && AllFit(c.fields) && Addressable(c.key) {
      TbsIs(c);
      if Addressable(Tbs(c)) {
        EncodeIsTlv(SEQUENCE, Tbs(c));
        if Addressable(Encode(SEQUENCE, Tbs(c)) + c.signature) {
          EncodeIsTlv(SEQUENCE, Encode(SEQUENCE, Tbs(c)) + c.signature);
        }
      }
    }
  }

  lemma TbsIs(c: Parts)
    requires (c.version.Some? ==> Addressable(c.version.value)) && AllFit(c.fields) && Addressable(c.key)
    ensures Tbs(c) == TbsBytes(c) && KeyInfo(c) == SequenceBytes(c.key)
  {
    hide Encode, Tlv, EncodeAll, FieldsBytes;
    FieldsAre(c.fields);
    EncodeIsTlv(SEQUENCE, c.key);
    if c.version.Some? { EncodeIsTlv(EXPLICIT_VERSION, c.version.value); }
    var version := VersionBytes(c);
    assert version + (EncodeAll(c.fields) + (KeyInfo(c) + c.extensions))
        == version + EncodeAll(c.fields) + KeyInfo(c) + c.extensions;
  }

  lemma {:induction false} SkipWritten(fields: seq<Field>, rest: seq<byte>)
    requires AllFit(fields)
    ensures Skip(EncodeAll(fields) + rest, |fields|) == Some(rest)
  {
    hide Parse, Encode;
    if fields == [] {
      assert [] + rest == rest;
    } else {
      var first := Encode(fields[0].tag, fields[0].value);
      var others := EncodeAll(fields[1..]);
      SplitFirst(fields, rest);
      RoundTrip(fields[0].tag, fields[0].value, others + rest);
      SkipWritten(fields[1..], rest);
    }
  }

  lemma SplitFirst(fields: seq<Field>, rest: seq<byte>)
    requires AllFit(fields) && fields != []
    ensures EncodeAll(fields) + rest == Encode(fields[0].tag, fields[0].value) + (EncodeAll(fields[1..]) + rest)
  {
    hide Encode;
  }

  lemma {:induction false} SkipRead(b: seq<byte>, count: nat) returns (fields: seq<Field>)
    requires Skip(b, count).Some?
    ensures |fields| == count && AllFit(fields)
    ensures b == EncodeAll(fields) + Skip(b, count).value
    ensures count > 0 ==> b != [] && b[0] == fields[0].tag
    decreases count
  {
    hide Parse, Encode;
    if count == 0 {
      fields := [];
      assert b == [] + b;
    } else {
      Canonical(b);
      var e := Parse(b).value;
      var later := SkipRead(e.rest, count - 1);
      fields := [Field(e.tag, e.value)] + later;
      StartsWithTag(e.tag, e.value, e.rest);
      assert fields[1..] == later;
      SplitFirst(fields, Skip(b, count).value);
    }
  }

  /** The first byte of an encoding is its tag. */
  lemma StartsWithTag(tag: byte, value: seq<byte>, rest: seq<byte>)
    requires Addressable(value)
    ensures (Encode(tag, value) + rest)[0] == tag
  {
  }

  /** A written certificate is fingerprinted over exactly its key info. */
  lemma FingerprintOfWritten(c: Parts)
    requires WellShaped(c)
    ensures FingerprintedKey(Written(c)) == Some(KeyInfo(c))
  {
    hide Parse, Encode, EncodeAll;
    var tbs := Encode(SEQUENCE, Tbs(c));
    var inner := tbs + c.signature;
    RoundTrip(SEQUENCE, inner, []);
    assert Written(c) + [] == Written(c);
    RoundTrip(SEQUENCE, Tbs(c), c.signature);
    var start := KeyInfo(c) + c.extensions;
    SkipVersion(c, start);
    SkipWritten(c.fields, start);
    RoundTrip(SEQUENCE, c.key, c.extensions);
    assert start[..|start| - |c.extensions|] == KeyInfo(c);
  }

  lemma SkipVersion(c: Parts, start: seq<byte>)
    requires WellShaped(c) && start == KeyInfo(c) + c.extensions
    ensures AfterVersion(Tbs(c)) == Some(EncodeAll(c.fields) + start)
  {
    hide Parse, Encode;
    var fields := EncodeAll(c.fields) + start;
    match c.version {
      case None =>
        var f := c.fields[0];
        assert Tbs(c) == fields == Encode(f.tag, f.value) + (EncodeAll(c.fields[1..]) + start);
        StartsWithTag(f.tag, f.value, EncodeAll(c.fields[1..]) + start);
      case Some(version) =>
        StartsWithTag(EXPLICIT_VERSION, version, fields);
        RoundTrip(EXPLICIT_VERSION, version, fields);
        assert Skip(fields, 0) == Some(fields);
    }
  }

  /** Whatever is fingerprinted is the key info of a certificate of that form. */
  lemma FingerprintRead(certificate: seq<byte>) returns (c: Parts)
    requires FingerprintedKey(certificate).Some? && Addressable(certificate)
    ensures WellShaped(c) && certificate == Written(c) && FingerprintedKey(certificate) == Some(KeyInfo(c))
  {
    hide Parse, Encode, EncodeAll, Skip;
    Canonical(certificate);
    var inner := Parse(certificate).value.value;
    assert Encode(SEQUENCE, inner) + [] == Encode(SEQUENCE, inner);
    Canonical(inner);
    var tbs := Parse(inner).value;
    var version, rest := VersionRead(tbs.value);
    var fields := SkipRead(rest, FIELDS_BEFORE_KEY);
    var start := Skip(rest, FIELDS_BEFORE_KEY).value;
    Canonical(start);
    var key := Parse(start).value;
    c := Parts(version, fields, key.value, key.rest, tbs.rest);
    assert start[..|start| - |key.rest|] == Encode(SEQUENCE, key.value);
    assert Tbs(c) == tbs.value;
  }

  lemma VersionRead(tbs: seq<byte>) returns (version: Option<seq<byte>>, rest: seq<byte>)
    requires AfterVersion(tbs).Some?
    ensures rest == AfterVersion(tbs).value && (version.Some? ==> Addressable(version.value))
    ensures version.None? ==> tbs == rest && (rest == [] || rest[0] != EXPLICIT_VERSION)
    ensures version.Some? ==> tbs == Encode(EXPLICIT_VERSION, version.value) + rest
  {
    hide Parse, LengthOctets;
    rest := AfterVersion(tbs).value;
    if tbs == [] || tbs[0] != EXPLICIT_VERSION {
      version := None;
    } else {
      Canonical(tbs);
      var e := Parse(tbs).value;
      assert Skip(e.rest, 0) == Some(e.rest);
      version := Some(e.value);
    }
  }

  /** What is fingerprinted, for every certificate of the shape and for no other input. */
  lemma FingerprintedShape(certificate: seq<byte>)
    ensures forall c :: Shaped(c) && certificate == CertificateBytes(c) ==>
                          FingerprintedKey(certificate) == Some(SequenceBytes(c.key))
    ensures FingerprintedKey(certificate).Some? && Addressable(certificate) ==>
              exists c :: Shaped(c) && certificate == CertificateBytes(c)
                          && FingerprintedKey(certificate) == Some(SequenceBytes(c.key))
  {
    hide TbsBytes, CertificateBytes, SequenceBytes, FingerprintedKey, WellShaped;
    forall c | Shaped(c) && certificate == CertificateBytes(c)
      ensures FingerprintedKey(certificate) == Some(SequenceBytes(c.key))
    {
      ShapeIs(c);
      FingerprintOfWritten(c);
    }
    if FingerprintedKey(certificate).Some? && Addressable(certificate) {
      var c := FingerprintRead(certificate);
      ShapeIs(c);
    }
  }

  /** The same reading, field by field, as the program performs it. */
  method Fingerprint(certificate: seq<byte>, sha256: seq<byte> -> seq<byte>) returns (r: Option<seq<byte>>)
    ensures r == match FingerprintedKey(certificate) case None => None case Some(key) => Some(sha256(key))
    ensures forall c :: Shaped(c) && certificate == CertificateBytes(c) ==> r == Some(sha256(SequenceBytes(c.key)))
    ensures r.Some? && Addressable(certificate) ==>
              exists c :: Shaped(c) && certificate == CertificateBytes(c) && r == Some(sha256(SequenceBytes(c.key)))
  {
    FingerprintedShape(certificate);
    hide Parse, CertificateBytes, SequenceBytes, TbsBytes;
    var whole := ParseElement(certificate);
    if whole.None? || whole.value.tag != SEQUENCE || whole.value.rest != [] { return None; }
    var body := ParseElement(whole.value.value);
    if body.None? || body.value.tag != SEQUENCE { return None; }
    var tbs := body.value.value;
    if tbs != [] && tbs[0] == EXPLICIT_VERSION {
      var version := ParseElement(tbs);
      if version.None? { return None; }
      assert Skip(version.value.rest, 0) == Some(version.value.rest);
      tbs := version.value.rest;
    }
    ghost var fields := tbs;
    for i := 0 to FIELDS_BEFORE_KEY
      invariant Skip(fields, FIELDS_BEFORE_KEY) == Skip(tbs, FIELDS_BEFORE_KEY - i)
    {
      var field := ParseElement(tbs);
      if field.None? { return None; }
      tbs := field.value.rest;
    }
    var key := ParseElement(tbs);
    if key.None? || key.value.tag != SEQUENCE { return None; }
    var length := |tbs| - |key.value.rest|;
    return Some(sha256(tbs[..length]));
  }

  const ED25519_ALGORITHM: seq<byte> := [0x30, 0x05, 0x06, 0x03, 0x2b, 0x65, 0x70]
  const EMPTY_NAME: seq<byte> := [0x30, 0x00]
  /** From 250101000000Z to 491231235959Z. */
  const VALIDITY: seq<byte> :=
    [0x30, 0x1e]
    + [0x17, 0x0d, 0x32, 0x35, 0x30, 0x31, 0x30, 0x31, 0x30, 0x30, 0x30, 0x30, 0x30, 0x30, 0x5a]
    + [0x17, 0x0d, 0x34, 0x39, 0x31, 0x32, 0x33, 0x31, 0x32, 0x33, 0x35, 0x39, 0x35, 0x39, 0x5a]

  /** The encoding of an Ed25519 public key, section 4 of RFC 8410. */
  function Ed25519Spki(publicKey: seq<byte>): seq<byte>
    requires |publicKey| == 32
  {
    Encode(SEQUENCE, ED25519_ALGORITHM + Encode(BIT_STRING, [0] + publicKey))
  }

  /** Sixteen random bytes made a positive integer without a leading zero. */
  function PositiveSerial(random: seq<byte>): (r: seq<byte>)
    requires |random| == 16
    ensures |r| == 16 && 1 <= r[0] < 128 && r[1..] == random[1..]
    ensures r[0] == random[0] % 128 || (random[0] % 128 == 0 && r[0] == 1)
  {
    var first := random[0] % 128;
    [if first == 0 then 1 else first] + random[1..]
  }

  function Joined(values: seq<seq<byte>>): seq<byte> {
    if values == [] then [] else values[0] + Joined(values[1..])
  }

  /** `der_sequence`: the values concatenated under one sequence tag. */
  method EncodeSequence(values: seq<seq<byte>>) returns (encoded: seq<byte>)
    requires Addressable(Joined(values))
    ensures encoded == Encode(SEQUENCE, Joined(values))
  {
    var contents: seq<byte> := [];
    for i := 0 to |values|
      invariant contents + Joined(values[i..]) == Joined(values)
    {
      assert values[i..][1..] == values[i + 1..];
      contents := contents + values[i];
    }
    assert values[|values|..] == [] && contents + [] == contents;
    encoded := EncodeElement(SEQUENCE, contents);
  }

  /** The parts a self-signed certificate is made of. */
  function SelfSignedParts(publicKey: seq<byte>, serial: seq<byte>, signature: seq<byte>): (c: Parts)
    requires |publicKey| == 32 && |serial| == 16 && |signature| == 64
    ensures PartsFit(c) && KeyInfo(c) == Ed25519Spki(publicKey)
  {
    hide LengthOctets;
    var fields := [Field(INTEGER, serial), Field(SEQUENCE, ED25519_ALGORITHM[2..]), Field(SEQUENCE, []),
                   Field(SEQUENCE, VALIDITY[2..]), Field(SEQUENCE, [])];
    var key := ED25519_ALGORITHM + Encode(BIT_STRING, [0] + publicKey);
    var c := Parts(Some(Encode(INTEGER, [2])), fields, key, [],
                   ED25519_ALGORITHM + Encode(BIT_STRING, [0] + signature));
    FieldBytes(fields);
    c
  }

  lemma {:induction false} FieldBytes(fields: seq<Field>)
    requires forall i | 0 <= i < |fields| :: |fields[i].value| <= 32
    ensures |EncodeAll(fields)| <= 42 * |fields|
  {
    if fields != [] { FieldBytes(fields[1..]); }
  }

  /** Fields written one by one are the fields written as a whole. */
  lemma {:induction false} JoinFields(values: seq<seq<byte>>, fields: seq<Field>, tail: seq<seq<byte>>)
    requires |values| == |fields| && AllFit(fields)
    requires forall i | 0 <= i < |fields| :: values[i] == Encode(fields[i].tag, fields[i].value)
    ensures Joined(values + tail) == EncodeAll(fields) + Joined(tail)
  {
    hide Encode;
    if fields == [] {
      assert values + tail == tail;
    } else {
      JoinFields(values[1..], fields[1..], tail);
      assert (values + tail)[1..] == values[1..] + tail;
      assert values[0] + (EncodeAll(fields[1..]) + Joined(tail)) == values[0] + EncodeAll(fields[1..]) + Joined(tail);
    }
  }

  lemma JoinThree(a: seq<byte>, b: seq<byte>, c: seq<byte>)
    ensures Joined([a, b, c]) == a + (b + c)
  {
    assert [a, b, c][1..] == [b, c] && [b, c][1..] == [c] && [c][1..] == [];
    assert Joined([c]) == c + [] == c;
  }

  lemma JoinTwo(a: seq<byte>, b: seq<byte>)
    ensures Joined([a, b]) == a + b
  {
    assert [a, b][1..] == [b] && [b][1..] == [];
    assert Joined([b]) == b + [] == b;
  }

  /** The constants are themselves encodings. */
  lemma Constants()
    ensures Encode(SEQUENCE, ED25519_ALGORITHM[2..]) == ED25519_ALGORITHM
    ensures Encode(SEQUENCE, []) == EMPTY_NAME
    ensures Encode(SEQUENCE, VALIDITY[2..]) == VALIDITY
  {
    assert LengthOctets(5) == [5] && LengthOctets(0) == [0] && LengthOctets(30) == [30];
    assert VALIDITY == VALIDITY[..2] + VALIDITY[2..] && VALIDITY[..2] == [SEQUENCE] + [30];
  }

  method SpkiOf(publicKey: seq<byte>) returns (spki: seq<byte>)
    requires |publicKey| == 32
    ensures spki == Ed25519Spki(publicKey) == SpkiBytes(publicKey)
  {
    PartsAre(publicKey, publicKey[..16], publicKey + publicKey);
    hide LengthOctets;
    var bits := EncodeElement(BIT_STRING, [0] + publicKey);
    JoinTwo(ED25519_ALGORITHM, bits);
    spki := EncodeSequence([ED25519_ALGORITHM, bits]);
  }

  /** The object identifier 1.3.101.112, alone in its sequence. */
  function Ed25519Algorithm(): seq<byte> {
    SequenceBytes(Tlv(Identifier(Universal, false, 6), [40 * 1 + 3, 101, 112]))
  }

  /** No unused bits, and the bytes. */
  function BitString(bytes: seq<byte>): (r: seq<byte>)
    requires |bytes| <= 64
    ensures |r| <= 75
  {
    Tlv(Identifier(Universal, false, 3), [0] + bytes)
  }

  /** Two UTC times, from the start of 2025 to the end of 2049. */
  function ValidityBytes(): seq<byte> {
    var from, to := Ascii("250101000000Z"), Ascii("491231235959Z");
    SequenceBytes(Tlv(Identifier(Universal, false, 23), from) + Tlv(Identifier(Universal, false, 23), to))
  }

  function SpkiBytes(publicKey: seq<byte>): seq<byte>
    requires |publicKey| == 32
  {
    SequenceBytes(Ed25519Algorithm() + BitString(publicKey))
  }

  /** Version 3, serial, algorithm, issuer, validity, subject and key info, in this order. */
  function SelfSignedTbs(publicKey: seq<byte>, serial: seq<byte>): seq<byte>
    requires |publicKey| == 32 && |serial| == 16
  {
    var version := Tlv(Identifier(ContextSpecific, true, 0), Tlv(Identifier(Universal, false, 2), [2]));
    var number := Tlv(Identifier(Universal, false, 2), serial);
    var nobody := SequenceBytes([]);
    SequenceBytes(
      version + number + Ed25519Algorithm() + nobody + ValidityBytes() + nobody + SpkiBytes(publicKey))
  }

  function SelfSignedBytes(publicKey: seq<byte>, serial: seq<byte>, signature: seq<byte>): seq<byte>
    requires |publicKey| == 32 && |serial| == 16 && |signature| == 64
  {
    SequenceBytes(SelfSignedTbs(publicKey, serial) + Ed25519Algorithm() + BitString(signature))
  }

  /** The constants and the parts are these bytes. */
  lemma PartsAre(publicKey: seq<byte>, serial: seq<byte>, signature: seq<byte>)
    requires |publicKey| == 32 && |serial| == 16 && |signature| == 64
    ensures
      var c := SelfSignedParts(publicKey, serial, signature);
      && Ed25519Spki(publicKey) == SpkiBytes(publicKey)
      && Encode(SEQUENCE, Tbs(c)) == SelfSignedTbs(publicKey, serial)
      && Written(c) == SelfSignedBytes(publicKey, serial, signature)
  {
    hide Encode, Tlv, EncodeAll, FieldsBytes, Tbs, Ascii;
    var c := SelfSignedParts(publicKey, serial, signature);
    AlgorithmIs();
    ValidityIs();
    EncodeIsTlv(BIT_STRING, [0] + publicKey);
    EncodeIsTlv(BIT_STRING, [0] + signature);
    EncodeIsTlv(SEQUENCE, c.key);
    EncodeIsTlv(SEQUENCE, Tbs(c));
    EncodeIsTlv(SEQUENCE, Encode(SEQUENCE, Tbs(c)) + c.signature);
    TbsIs(c);
    EncodeIsTlv(INTEGER, [2]);
    FiveFields(c.fields);
    var version := Tlv(Identifier(ContextSpecific, true, 0), Tlv(Identifier(Universal, false, 2), [2]));
    var number := Tlv(Identifier(Universal, false, 2), serial);
    var nobody := SequenceBytes([]);
    assert FieldsBytes(c.fields) == number + Ed25519Algorithm() + nobody + ValidityBytes() + nobody;
    SevenJoined(version, number, Ed25519Algorithm(), nobody, ValidityBytes(), nobody, SpkiBytes(publicKey));
    assert SelfSignedTbs(publicKey, serial) + (Ed25519Algorithm() + BitString(signature))
        == SelfSignedTbs(publicKey, serial) + Ed25519Algorithm() + BitString(signature);
    assert Tbs(c) == version + (number + Ed25519Algorithm() + nobody + ValidityBytes() + nobody) + SpkiBytes(publicKey) + [];
  }

  lemma SevenJoined(a: seq<byte>, b: seq<byte>, c: seq<byte>, d: seq<byte>, e: seq<byte>, f: seq<byte>, g: seq<byte>)
    ensures a + (b + c + d + e + f) + g + [] == a + b + c + d + e + f + g
  {
  }

  lemma AlgorithmIs()
    ensures ED25519_ALGORITHM == Ed25519Algorithm() == SequenceBytes(ED25519_ALGORITHM[2..])
  {
    EncodeIsTlv(6, [43, 101, 112]);
    EncodeIsTlv(SEQUENCE, ED25519_ALGORITHM[2..]);
    Constants();
    assert LengthOctets(3) == [3];
    assert Encode(6, [43, 101, 112]) == ED25519_ALGORITHM[2..];
  }

  lemma {:induction false} SpelledOnce(a: seq<byte>, b: seq<byte>, text: string)
    requires Spells(a, text) && Spells(b, text)
    ensures a == b
  {
  }

  lemma FromSpelled(from: seq<byte>)
    requires from == [0x32, 0x35, 0x30, 0x31, 0x30, 0x31, 0x30, 0x30, 0x30, 0x30, 0x30, 0x30, 0x5a]
    ensures from == Ascii("250101000000Z")
  {
    assert Spells(from, "250101000000Z");
    SpelledOnce(from, Ascii("250101000000Z"), "250101000000Z");
  }

  lemma ToSpelled(to: seq<byte>)
    requires to == [0x34, 0x39, 0x31, 0x32, 0x33, 0x31, 0x32, 0x33, 0x35, 0x39, 0x35, 0x39, 0x5a]
    ensures to == Ascii("491231235959Z")
  {
    assert Spells(to, "491231235959Z");
    SpelledOnce(to, Ascii("491231235959Z"), "491231235959Z");
  }

  lemma TimesCut(from: seq<byte>, to: seq<byte>)
    requires from == [0x32, 0x35, 0x30, 0x31, 0x30, 0x31, 0x30, 0x30, 0x30, 0x30, 0x30, 0x30, 0x5a]
    requires to == [0x34, 0x39, 0x31, 0x32, 0x33, 0x31, 0x32, 0x33, 0x35, 0x39, 0x35, 0x39, 0x5a]
    ensures VALIDITY[2..] == ([23, 13] + from) + ([23, 13] + to)
  {
    assert [0x17, 0x0d, 0x32, 0x35, 0x30, 0x31, 0x30, 0x31, 0x30, 0x30, 0x30, 0x30, 0x30, 0x30, 0x5a] == [23, 13] + from;
    assert [0x17, 0x0d, 0x34, 0x39, 0x31, 0x32, 0x33, 0x31, 0x32, 0x33, 0x35, 0x39, 0x35, 0x39, 0x5a] == [23, 13] + to;
  }

  lemma ValidityIs()
    ensures VALIDITY == ValidityBytes() == SequenceBytes(VALIDITY[2..])
  {
    hide Ascii, Tlv, Definite, Encode, VALIDITY;
    var from: seq<byte> := [0x32, 0x35, 0x30, 0x31, 0x30, 0x31, 0x30, 0x30, 0x30, 0x30, 0x30, 0x30, 0x5a];
    var to: seq<byte> := [0x34, 0x39, 0x31, 0x32, 0x33, 0x31, 0x32, 0x33, 0x35, 0x39, 0x35, 0x39, 0x5a];
    FromSpelled(from);
    ToSpelled(to);
    TimeIs(from);
    TimeIs(to);
    Constants();
    TimesCut(from, to);
    ValidityLength();
    EncodeIsTlv(SEQUENCE, VALIDITY[2..]);
  }

  lemma ValidityLength()
    ensures |VALIDITY| == 32
  {
  }

  lemma TimeIs(time: seq<byte>)
    requires |time| == 13
    ensures Tlv(Identifier(Universal, false, 23), time) == [23, 13] + time
  {
  }

  lemma FieldsStep(f: seq<Field>, i: nat)
    requires i < |f| && AllFit(f)
    ensures FieldsBytes(f[i..]) == Tlv(f[i].tag, f[i].value) + FieldsBytes(f[i + 1..])
  {
    hide Tlv;
    assert f[i..][1..] == f[i + 1..] && f[i..][0] == f[i];
  }

  lemma FiveFields(f: seq<Field>)
    requires |f| == 5 && AllFit(f)
    ensures FieldsBytes(f) == Tlv(f[0].tag, f[0].value) + Tlv(f[1].tag, f[1].value) + Tlv(f[2].tag, f[2].value)
                              + Tlv(f[3].tag, f[3].value) + Tlv(f[4].tag, f[4].value)
  {
    FieldsStep(f, 0);
    FieldsStep(f, 1);
    FieldsStep(f, 2);
    FieldsStep(f, 3);
    FieldsStep(f, 4);
    assert f[0..] == f && FieldsBytes(f[5..]) == [];
    hide Tlv, FieldsBytes;
    FiveJoined(Tlv(f[0].tag, f[0].value), Tlv(f[1].tag, f[1].value), Tlv(f[2].tag, f[2].value),
               Tlv(f[3].tag, f[3].value), Tlv(f[4].tag, f[4].value));
  }

  lemma FiveJoined(a: seq<byte>, b: seq<byte>, c: seq<byte>, d: seq<byte>, e: seq<byte>)
    ensures a + (b + (c + (d + (e + [])))) == a + b + c + d + e
  {
  }

  /** The certificate a key signs for itself; `sign` stands for Ed25519. */
  method SelfSigned(publicKey: seq<byte>, random: seq<byte>, sign: seq<byte> -> seq<byte>)
    returns (certificate: seq<byte>, ghost parts: Parts)
    requires |publicKey| == 32 && |random| == 16 && forall m :: |sign(m)| == 64
    ensures WellShaped(parts) && certificate == Written(parts)
    ensures FingerprintedKey(certificate) == Some(Ed25519Spki(publicKey))
    ensures parts == SelfSignedParts(publicKey, PositiveSerial(random), sign(Encode(SEQUENCE, Tbs(parts))))
    ensures
      var serial := PositiveSerial(random);
      certificate == SelfSignedBytes(publicKey, serial, sign(SelfSignedTbs(publicKey, serial)))
  {
    hide Encode, EncodeAll, Joined, PositiveSerial, FingerprintedKey, SelfSignedBytes, SelfSignedTbs;
    var two := EncodeElement(INTEGER, [2]);
    var version := EncodeElement(EXPLICIT_VERSION, two);
    var serial := EncodeElement(INTEGER, PositiveSerial(random));
    var spki := SpkiOf(publicKey);
    ghost var unsigned := SelfSignedParts(publicKey, PositiveSerial(random), sign([]));
    Constants();
    TbsJoined(unsigned, version, [serial, ED25519_ALGORITHM, EMPTY_NAME, VALIDITY, EMPTY_NAME], spki);
    assert [version] + [serial, ED25519_ALGORITHM, EMPTY_NAME, VALIDITY, EMPTY_NAME] + [spki]
        == [version, serial, ED25519_ALGORITHM, EMPTY_NAME, VALIDITY, EMPTY_NAME, spki];
    var tbs := EncodeSequence([version, serial, ED25519_ALGORITHM, EMPTY_NAME, VALIDITY, EMPTY_NAME, spki]);
    var signature := EncodeElement(BIT_STRING, [0] + sign(tbs));
    parts := SelfSignedParts(publicKey, PositiveSerial(random), sign(tbs));
    JoinThree(tbs, ED25519_ALGORITHM, signature);
    certificate := EncodeSequence([tbs, ED25519_ALGORITHM, signature]);
    SelfSignedFingerprint(publicKey, PositiveSerial(random), sign(tbs));
    PartsAre(publicKey, PositiveSerial(random), sign(tbs));
  }

  lemma TbsJoined(c: Parts, version: seq<byte>, values: seq<seq<byte>>, spki: seq<byte>)
    requires WellShaped(c) && c.version.Some? && c.extensions == []
    requires version == VersionBytes(c) && spki == KeyInfo(c) && |values| == |c.fields|
    requires forall i | 0 <= i < |c.fields| :: values[i] == Encode(c.fields[i].tag, c.fields[i].value)
    ensures Joined([version] + values + [spki]) == Tbs(c)
  {
    hide Encode, EncodeAll;
    JoinFields(values, c.fields, [spki]);
    assert ([version] + values + [spki])[1..] == values + [spki];
    assert [spki][1..] == [];
    assert Joined([spki]) == spki + [] == spki;
  }

  /**
   * The identity of a self-signed certificate is that of the key alone: neither the serial nor
   * the signature enters it, for every key, serial and signature scheme.
   */
  lemma SelfSignedFingerprint(publicKey: seq<byte>, serial: seq<byte>, signature: seq<byte>)
    requires |publicKey| == 32 && |serial| == 16 && |signature| == 64
    ensures FingerprintedKey(Written(SelfSignedParts(publicKey, serial, signature))) == Some(Ed25519Spki(publicKey))
  {
    hide Written, FingerprintedKey;
    FingerprintOfWritten(SelfSignedParts(publicKey, serial, signature));
  }

  /** Different keys are fingerprinted over different bytes. */
  lemma SpkiIdentifiesKey(a: seq<byte>, b: seq<byte>)
    requires |a| == |b| == 32 && Ed25519Spki(a) == Ed25519Spki(b)
    ensures a == b
  {
    hide Parse, Encode;
    var first, second := Encode(BIT_STRING, [0] + a), Encode(BIT_STRING, [0] + b);
    RoundTrip(SEQUENCE, ED25519_ALGORITHM + first, []);
    RoundTrip(SEQUENCE, ED25519_ALGORITHM + second, []);
    assert first == (ED25519_ALGORITHM + first)[7..] && second == (ED25519_ALGORITHM + second)[7..];
    RoundTrip(BIT_STRING, [0] + a, []);
    RoundTrip(BIT_STRING, [0] + b, []);
    assert a == ([0] + a)[1..] && b == ([0] + b)[1..];
  }
}
