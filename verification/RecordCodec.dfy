/**
 The on-disk layout of a persisted key (PersistenceManager, format version 3). The layout
 is self-delimiting: reading what was written returns every written field and stops at
 the first byte after the record.
 */
module RecordCodec {
  import opened Common
  import opened KeyData
  import opened DataStreams

  const FORMAT_VERSION: Byte := 3

  /** A stream of fields: the first field's bytes followed by everything after it. */
  lemma Assoc(a: Bytes, b: Bytes, rest: Bytes)
    ensures (a + b) + rest == a + (b + rest)
  {
  }

  // ---- nullable fields: a presence flag, then the value ----

  function EncodeNullable<T>(o: Option<T>, encode: T -> Bytes): Bytes {
    match o
    case None => EncodeBool(false)
    case Some(v) => EncodeBool(true) + encode(v)
  }

  function DecodeNullable<T>(s: Bytes, decode: Bytes -> Parsed<T>): Parsed<Option<T>> {
    var (present, rest) :- DecodeBool(s);
    if present then
      var (v, after) :- decode(rest);
      Parsed(Some(v), after)
    else Parsed(None, rest)
  }

  lemma NullableRoundTrip<T>(o: Option<T>, encode: T -> Bytes, decode: Bytes -> Parsed<T>, rest: Bytes)
    requires o.Some? ==> decode(encode(o.value) + rest) == Parsed(o.value, rest)
    ensures DecodeNullable(EncodeNullable(o, encode) + rest, decode) == Parsed(o, rest)
  {
    match o
    case None => BoolRoundTrip(false, rest);
    case Some(v) =>
      Assoc(EncodeBool(true), encode(v), rest);
      BoolRoundTrip(true, encode(v) + rest);
  }

  // ---- identity ----

  datatype Identity = Identity(
    uid: Int32, alias: Utf16, securityLevel: Int32, skipLeafHack: bool, nspace: Int64, domain: Int32)

  function EncodeIdentity(h: Identity): Bytes
    requires UtfFits(h.alias)
  {
    [FORMAT_VERSION] + (EncodeInt(h.uid) + (EncodeUtf(h.alias) + (EncodeInt(h.securityLevel) +
    (EncodeBool(h.skipLeafHack) + (EncodeLong(h.nspace) + EncodeInt(h.domain))))))
  }

  function DecodeIdentity(s: Bytes): Parsed<Identity> {
    if |s| < 1 || s[0] != FORMAT_VERSION then Failed
    else
      var (uid, s1) :- DecodeInt(s[1..]);
      var (alias, s2) :- DecodeUtf(s1);
      var (securityLevel, s3) :- DecodeInt(s2);
      var (skipLeafHack, s4) :- DecodeBool(s3);
      var (nspace, s5) :- DecodeLong(s4);
      var (domain, s6) :- DecodeInt(s5);
      Parsed(Identity(uid, alias, securityLevel, skipLeafHack, nspace, domain), s6)
  }

  lemma IdentityRoundTrip(h: Identity, rest: Bytes)
    requires UtfFits(h.alias)
    ensures DecodeIdentity(EncodeIdentity(h) + rest) == Parsed(h, rest)
  {
    var f5 := EncodeLong(h.nspace) + EncodeInt(h.domain);
    var f4 := EncodeBool(h.skipLeafHack) + f5;
    var f3 := EncodeInt(h.securityLevel) + f4;
    var f2 := EncodeUtf(h.alias) + f3;
    var f1 := EncodeInt(h.uid) + f2;
    assert (EncodeIdentity(h) + rest)[1..] == f1 + rest;
    Assoc(EncodeInt(h.uid), f2, rest); IntRoundTrip(h.uid, f2 + rest);
    Assoc(EncodeUtf(h.alias), f3, rest); UtfRoundTrip(h.alias, f3 + rest);
    Assoc(EncodeInt(h.securityLevel), f4, rest); IntRoundTrip(h.securityLevel, f4 + rest);
    Assoc(EncodeBool(h.skipLeafHack), f5, rest); BoolRoundTrip(h.skipLeafHack, f5 + rest);
    Assoc(EncodeLong(h.nspace), EncodeInt(h.domain), rest); LongRoundTrip(h.nspace, EncodeInt(h.domain) + rest);
    IntRoundTrip(h.domain, rest);
  }

  // ---- key material, certificate chain and marshalled metadata ----

  function EncodeKeyPair(p: KeyPair): Bytes {
    EncodeBlob(p.privateKey) + EncodeBlob(p.publicKey)
  }

  function DecodeKeyPair(s: Bytes): Parsed<KeyPair> {
    var (privateKey, s1) :- DecodeBlob(s);
    var (publicKey, s2) :- DecodeBlob(s1);
    Parsed(KeyPair(privateKey, publicKey), s2)
  }

  lemma KeyPairRoundTrip(p: KeyPair, rest: Bytes)
    ensures DecodeKeyPair(EncodeKeyPair(p) + rest) == Parsed(p, rest)
  {
    Assoc(EncodeBlob(p.privateKey), EncodeBlob(p.publicKey), rest);
    BlobRoundTrip(p.privateKey, EncodeBlob(p.publicKey) + rest);
    BlobRoundTrip(p.publicKey, rest);
  }

  predicate SecretFits(o: Option<SecretKey>) {
    o.Some? ==> UtfFits(o.value.algorithm)
  }

  function EncodeSecret(o: Option<SecretKey>): Bytes
    requires SecretFits(o)
  {
    match o
    case None => EncodeBool(false)
    case Some(k) => EncodeBool(true) + (EncodeUtf(k.algorithm) + EncodeBlob(k.encoded))
  }

  function DecodeSecretKey(s: Bytes): Parsed<SecretKey> {
    var (algorithm, s1) :- DecodeUtf(s);
    var (encoded, s2) :- DecodeBlob(s1);
    Parsed(SecretKey(algorithm, encoded), s2)
  }

  lemma SecretRoundTrip(o: Option<SecretKey>, rest: Bytes)
    requires SecretFits(o)
    ensures DecodeNullable(EncodeSecret(o) + rest, DecodeSecretKey) == Parsed(o, rest)
  {
    match o
    case None => BoolRoundTrip(false, rest);
    case Some(k) =>
      var body := EncodeUtf(k.algorithm) + EncodeBlob(k.encoded);
      Assoc(EncodeBool(true), body, rest); BoolRoundTrip(true, body + rest);
      Assoc(EncodeUtf(k.algorithm), EncodeBlob(k.encoded), rest);
      UtfRoundTrip(k.algorithm, EncodeBlob(k.encoded) + rest);
      BlobRoundTrip(k.encoded, rest);
  }

  function EncodeChain(c: Chain): Bytes {
    EncodeInt(|c|) + EncodeBlobs(c)
  }

  function DecodeChain(s: Bytes): Parsed<Chain> {
    var (n, s1) :- DecodeInt(s);
    DecodeBlobs(if n < 0 then 0 else n, s1)
  }

  lemma ChainRoundTrip(c: Chain, rest: Bytes)
    ensures DecodeChain(EncodeChain(c) + rest) == Parsed(c, rest)
  {
    Assoc(EncodeInt(|c|), EncodeBlobs(c), rest);
    IntRoundTrip(|c|, EncodeBlobs(c) + rest);
    BlobsRoundTrip(c, rest);
  }

  datatype Material = Material(
    keyPair: Option<KeyPair>, secretKey: Option<SecretKey>, chain: Chain, metadata: Option<Blob>)

  function EncodeMaterial(m: Material): Bytes
    requires SecretFits(m.secretKey)
  {
    EncodeNullable(m.keyPair, EncodeKeyPair) + (EncodeSecret(m.secretKey) +
    (EncodeChain(m.chain) + EncodeNullable(m.metadata, EncodeBlob)))
  }

  function DecodeMaterial(s: Bytes): Parsed<Material> {
    var (keyPair, s1) :- DecodeNullable(s, DecodeKeyPair);
    var (secretKey, s2) :- DecodeNullable(s1, DecodeSecretKey);
    var (chain, s3) :- DecodeChain(s2);
    var (metadata, s4) :- DecodeNullable(s3, DecodeBlob);
    Parsed(Material(keyPair, secretKey, chain, metadata), s4)
  }

  lemma MaterialRoundTrip(m: Material, rest: Bytes)
    requires SecretFits(m.secretKey)
    ensures DecodeMaterial(EncodeMaterial(m) + rest) == Parsed(m, rest)
  {
    var f3 := EncodeNullable(m.metadata, EncodeBlob);
    var f2 := EncodeChain(m.chain) + f3;
    var f1 := EncodeSecret(m.secretKey) + f2;
    Assoc(EncodeNullable(m.keyPair, EncodeKeyPair), f1, rest);
    if m.keyPair.Some? { KeyPairRoundTrip(m.keyPair.value, f1 + rest); }
    NullableRoundTrip(m.keyPair, EncodeKeyPair, DecodeKeyPair, f1 + rest);
    Assoc(EncodeSecret(m.secretKey), f2, rest); SecretRoundTrip(m.secretKey, f2 + rest);
    Assoc(EncodeChain(m.chain), f3, rest); ChainRoundTrip(m.chain, f3 + rest);
    if m.metadata.Some? { BlobRoundTrip(m.metadata.value, rest); }
    NullableRoundTrip(m.metadata, EncodeBlob, DecodeBlob, rest);
  }

  // ---- generation parameters ----

  datatype Shape = Shape(
    algorithm: Int32, keySize: Int32, ecCurve: Int32,
    purpose: IntList, digest: IntList, padding: IntList, blockMode: IntList, mgfDigest: IntList,
    usageCountLimit: Int32)

  function EncodeShape(p: Shape): Bytes {
    EncodeInt(p.algorithm) + (EncodeInt(p.keySize) + (EncodeInt(p.ecCurve) + (EncodeIntList(p.purpose) +
    (EncodeIntList(p.digest) + (EncodeIntList(p.padding) + (EncodeIntList(p.blockMode) +
    (EncodeIntList(p.mgfDigest) + EncodeInt(p.usageCountLimit))))))))
  }

  function DecodeShape(s: Bytes): Parsed<Shape> {
    var (algorithm, s1) :- DecodeInt(s);
    var (keySize, s2) :- DecodeInt(s1);
    var (ecCurve, s3) :- DecodeInt(s2);
    var (purpose, s4) :- DecodeIntList(s3);
    var (digest, s5) :- DecodeIntList(s4);
    var (padding, s6) :- DecodeIntList(s5);
    var (blockMode, s7) :- DecodeIntList(s6);
    var (mgfDigest, s8) :- DecodeIntList(s7);
    var (usageCountLimit, s9) :- DecodeInt(s8);
    Parsed(Shape(algorithm, keySize, ecCurve, purpose, digest, padding, blockMode, mgfDigest, usageCountLimit), s9)
  }

  lemma ShapeRoundTrip(p: Shape, rest: Bytes)
    ensures DecodeShape(EncodeShape(p) + rest) == Parsed(p, rest)
  {
    var f8 := EncodeInt(p.usageCountLimit);
    var f7 := EncodeIntList(p.mgfDigest) + f8;
    var f6 := EncodeIntList(p.blockMode) + f7;
    var f5 := EncodeIntList(p.padding) + f6;
    var f4 := EncodeIntList(p.digest) + f5;
    var f3 := EncodeIntList(p.purpose) + f4;
    var f2 := EncodeInt(p.ecCurve) + f3;
    var f1 := EncodeInt(p.keySize) + f2;
    Assoc(EncodeInt(p.algorithm), f1, rest); IntRoundTrip(p.algorithm, f1 + rest);
    Assoc(EncodeInt(p.keySize), f2, rest); IntRoundTrip(p.keySize, f2 + rest);
    Assoc(EncodeInt(p.ecCurve), f3, rest); IntRoundTrip(p.ecCurve, f3 + rest);
    Assoc(EncodeIntList(p.purpose), f4, rest); IntListRoundTrip(p.purpose, f4 + rest);
    Assoc(EncodeIntList(p.digest), f5, rest); IntListRoundTrip(p.digest, f5 + rest);
    Assoc(EncodeIntList(p.padding), f6, rest); IntListRoundTrip(p.padding, f6 + rest);
    Assoc(EncodeIntList(p.blockMode), f7, rest); IntListRoundTrip(p.blockMode, f7 + rest);
    Assoc(EncodeIntList(p.mgfDigest), f8, rest); IntListRoundTrip(p.mgfDigest, f8 + rest);
    IntRoundTrip(p.usageCountLimit, rest);
  }

  datatype Limits = Limits(
    callerNonce: Option<bool>, unlockedDeviceRequired: Option<bool>,
    activeDateTime: Option<Int64>, originationExpireDateTime: Option<Int64>, usageExpireDateTime: Option<Int64>,
    noAuthRequired: Option<bool>, origin: Option<Int32>, rsaPublicExponent: Option<int>)

  predicate ExponentFits(o: Option<int>) {
    o.Some? ==> |ToTwosComplement(o.value)| < 0x8000_0000
  }

  function EncodeExponent(o: Option<int>): Bytes
    requires ExponentFits(o)
  {
    match o
    case None => EncodeBool(false)
    case Some(x) => EncodeBool(true) + EncodeBlob(ToTwosComplement(x))
  }

  /** `BigInteger(b)` throws on an empty array. */
  function DecodeBigInteger(s: Bytes): Parsed<int> {
    var (b, rest) :- DecodeBlob(s);
    if |b| == 0 then Failed else Parsed(FromTwosComplement(b), rest)
  }

  lemma ExponentRoundTrip(o: Option<int>, rest: Bytes)
    requires ExponentFits(o)
    ensures DecodeNullable(EncodeExponent(o) + rest, DecodeBigInteger) == Parsed(o, rest)
  {
    match o
    case None => BoolRoundTrip(false, rest);
    case Some(x) =>
      var b: Blob := ToTwosComplement(x);
      Assoc(EncodeBool(true), EncodeBlob(b), rest);
      BoolRoundTrip(true, EncodeBlob(b) + rest);
      BlobRoundTrip(b, rest);
      TwosComplementRoundTrip(x);
  }

  function EncodeLimits(p: Limits): Bytes
    requires ExponentFits(p.rsaPublicExponent)
  {
    EncodeNullable(p.callerNonce, EncodeBool) + (EncodeNullable(p.unlockedDeviceRequired, EncodeBool) +
    (EncodeNullable(p.activeDateTime, EncodeLong) + (EncodeNullable(p.originationExpireDateTime, EncodeLong) +
    (EncodeNullable(p.usageExpireDateTime, EncodeLong) + (EncodeNullable(p.noAuthRequired, EncodeBool) +
    (EncodeNullable(p.origin, EncodeInt) + EncodeExponent(p.rsaPublicExponent)))))))
  }

  function DecodeLimits(s: Bytes): Parsed<Limits> {
    var (callerNonce, s1) :- DecodeNullable(s, DecodeBool);
    var (unlockedDeviceRequired, s2) :- DecodeNullable(s1, DecodeBool);
    var (activeDateTime, s3) :- DecodeNullable(s2, DecodeLong);
    var (originationExpireDateTime, s4) :- DecodeNullable(s3, DecodeLong);
    var (usageExpireDateTime, s5) :- DecodeNullable(s4, DecodeLong);
    var (noAuthRequired, s6) :- DecodeNullable(s5, DecodeBool);
    var (origin, s7) :- DecodeNullable(s6, DecodeInt);
    var (rsaPublicExponent, s8) :- DecodeNullable(s7, DecodeBigInteger);
    Parsed(Limits(callerNonce, unlockedDeviceRequired, activeDateTime, originationExpireDateTime,
                  usageExpireDateTime, noAuthRequired, origin, rsaPublicExponent), s8)
  }

  lemma NullableBoolRoundTrip(o: Option<bool>, rest: Bytes)
    ensures DecodeNullable(EncodeNullable(o, EncodeBool) + rest, DecodeBool) == Parsed(o, rest)
  {
    if o.Some? { BoolRoundTrip(o.value, rest); }
    NullableRoundTrip(o, EncodeBool, DecodeBool, rest);
  }

  lemma NullableLongRoundTrip(o: Option<Int64>, rest: Bytes)
    ensures DecodeNullable(EncodeNullable(o, EncodeLong) + rest, DecodeLong) == Parsed(o, rest)
  {
    if o.Some? { LongRoundTrip(o.value, rest); }
    NullableRoundTrip(o, EncodeLong, DecodeLong, rest);
  }

  lemma NullableIntRoundTrip(o: Option<Int32>, rest: Bytes)
    ensures DecodeNullable(EncodeNullable(o, EncodeInt) + rest, DecodeInt) == Parsed(o, rest)
  {
    if o.Some? { IntRoundTrip(o.value, rest); }
    NullableRoundTrip(o, EncodeInt, DecodeInt, rest);
  }

  lemma LimitsRoundTrip(p: Limits, rest: Bytes)
    requires ExponentFits(p.rsaPublicExponent)
    ensures DecodeLimits(EncodeLimits(p) + rest) == Parsed(p, rest)
  {
    var f7 := EncodeExponent(p.rsaPublicExponent);
    var f6 := EncodeNullable(p.origin, EncodeInt) + f7;
    var f5 := EncodeNullable(p.noAuthRequired, EncodeBool) + f6;
    var f4 := EncodeNullable(p.usageExpireDateTime, EncodeLong) + f5;
    var f3 := EncodeNullable(p.originationExpireDateTime, EncodeLong) + f4;
    var f2 := EncodeNullable(p.activeDateTime, EncodeLong) + f3;
    var f1 := EncodeNullable(p.unlockedDeviceRequired, EncodeBool) + f2;
    Assoc(EncodeNullable(p.callerNonce, EncodeBool), f1, rest); NullableBoolRoundTrip(p.callerNonce, f1 + rest);
    Assoc(EncodeNullable(p.unlockedDeviceRequired, EncodeBool), f2, rest);
    NullableBoolRoundTrip(p.unlockedDeviceRequired, f2 + rest);
    Assoc(EncodeNullable(p.activeDateTime, EncodeLong), f3, rest); NullableLongRoundTrip(p.activeDateTime, f3 + rest);
    Assoc(EncodeNullable(p.originationExpireDateTime, EncodeLong), f4, rest);
    NullableLongRoundTrip(p.originationExpireDateTime, f4 + rest);
    Assoc(EncodeNullable(p.usageExpireDateTime, EncodeLong), f5, rest);
    NullableLongRoundTrip(p.usageExpireDateTime, f5 + rest);
    Assoc(EncodeNullable(p.noAuthRequired, EncodeBool), f6, rest); NullableBoolRoundTrip(p.noAuthRequired, f6 + rest);
    Assoc(EncodeNullable(p.origin, EncodeInt), f7, rest); NullableIntRoundTrip(p.origin, f7 + rest);
    ExponentRoundTrip(p.rsaPublicExponent, rest);
  }

  // ---- the whole record ----

  function IdentityOf(r: Record): Identity {
    Identity(r.uid, r.alias, r.securityLevel, r.skipLeafHack, r.nspace, r.domain)
  }

  function MaterialOf(r: Record): Material {
    Material(r.keyPair, r.secretKey, r.chain, r.metadata)
  }

  function ShapeOf(p: Params): Shape {
    Shape(p.algorithm, p.keySize, p.ecCurve, p.purpose, p.digest, p.padding, p.blockMode, p.mgfDigest,
          p.usageCountLimit)
  }

  function LimitsOf(p: Params): Limits {
    Limits(p.callerNonce, p.unlockedDeviceRequired, p.activeDateTime, p.originationExpireDateTime,
           p.usageExpireDateTime, p.noAuthRequired, p.origin, p.rsaPublicExponent)
  }

  function Assemble(h: Identity, m: Material, s: Shape, l: Limits): Record {
    Record(h.uid, h.alias, h.securityLevel, h.skipLeafHack, h.nspace, h.domain,
           m.keyPair, m.secretKey, m.chain, m.metadata,
           Params(s.algorithm, s.keySize, s.ecCurve, s.purpose, s.digest, s.padding, s.blockMode, s.mgfDigest,
                  s.usageCountLimit, l.callerNonce, l.unlockedDeviceRequired, l.activeDateTime,
                  l.originationExpireDateTime, l.usageExpireDateTime, l.noAuthRequired, l.origin,
                  l.rsaPublicExponent))
  }

  /** The records whose encoding throws no exception. */
  predicate Encodable(r: Record) {
    UtfFits(r.alias) && SecretFits(r.secretKey) && ExponentFits(r.params.rsaPublicExponent)
  }

  function EncodeRecord(r: Record): Bytes
    requires Encodable(r)
  {
    EncodeIdentity(IdentityOf(r)) + (EncodeMaterial(MaterialOf(r)) +
    (EncodeShape(ShapeOf(r.params)) + EncodeLimits(LimitsOf(r.params))))
  }

  function DecodeRecord(s: Bytes): Parsed<Record> {
    var (identity, s1) :- DecodeIdentity(s);
    var (material, s2) :- DecodeMaterial(s1);
    var (shape, s3) :- DecodeShape(s2);
    var (limits, s4) :- DecodeLimits(s3);
    Parsed(Assemble(identity, material, shape, limits), s4)
  }

  /** Reading a written record returns it and consumes exactly its bytes, whatever follows. */
  lemma RecordRoundTrip(r: Record, rest: Bytes)
    requires Encodable(r)
    ensures DecodeRecord(EncodeRecord(r) + rest) == Parsed(r, rest)
  {
    var limits := EncodeLimits(LimitsOf(r.params));
    var params := EncodeShape(ShapeOf(r.params)) + limits;
    var body := EncodeMaterial(MaterialOf(r)) + params;
    Assoc(EncodeIdentity(IdentityOf(r)), body, rest); IdentityRoundTrip(IdentityOf(r), body + rest);
    Assoc(EncodeMaterial(MaterialOf(r)), params, rest); MaterialRoundTrip(MaterialOf(r), params + rest);
    Assoc(EncodeShape(ShapeOf(r.params)), limits, rest); ShapeRoundTrip(ShapeOf(r.params), limits + rest);
    LimitsRoundTrip(LimitsOf(r.params), rest);
  }

  /** Codes a reader inverts, whatever follows, are prefix-free. */
  lemma InvertibleIsPrefixFree<T>(decode: Bytes -> Parsed<T>, a: Bytes, b: Bytes, x: T, y: T, rest: Bytes)
    requires decode(a + rest) == Parsed(x, rest) && decode(b + []) == Parsed(y, []) && b == a + rest
    ensures x == y && rest == []
  {
    assert b + [] == b;
  }

  /** No record's bytes are a proper prefix of another's, so equal bytes mean equal records. */
  lemma RecordsArePrefixFree(r: Record, s: Record, rest: Bytes)
    requires Encodable(r) && Encodable(s) && EncodeRecord(s) == EncodeRecord(r) + rest
    ensures r == s && rest == []
  {
    RecordRoundTrip(r, rest);
    RecordRoundTrip(s, []);
    InvertibleIsPrefixFree(DecodeRecord, EncodeRecord(r), EncodeRecord(s), r, s, rest);
  }

  /** Exponents come from `BigInteger.valueOf(long)`: at most eight bytes, so they always fit. */
  lemma LongExponentFits(x: Int64)
    ensures ExponentFits(Some(x))
  {
    assert HalfRange(8) == 0x8000_0000_0000_0000 by {
      assert HalfRange(4) == 0x8000_0000;
    }
    TwosComplementLength(x, 8);
  }
}
