/** The data carried by a software key: material, generation parameters and stored record. */
module KeyData {
  import opened Common

  /** Names a key: the owning uid and the alias it chose. */
  datatype Key = Key(uid: Int32, alias: Utf16)

  /** A key pair by its PKCS8 and X.509 encodings. */
  datatype KeyPair = KeyPair(privateKey: Blob, publicKey: Blob)

  /** A certificate chain by the encodings of its certificates. */
  type Chain = c: seq<Blob> | |c| < 0x8000_0000 witness []

  datatype SecretKey = SecretKey(algorithm: Utf16, encoded: Blob)

  /** The fields of KeyGenParameters that reach the disk. */
  datatype Params = Params(
    algorithm: Int32, keySize: Int32, ecCurve: Int32,
    purpose: IntList, digest: IntList, padding: IntList, blockMode: IntList, mgfDigest: IntList,
    usageCountLimit: Int32,
    callerNonce: Option<bool>, unlockedDeviceRequired: Option<bool>,
    activeDateTime: Option<Int64>, originationExpireDateTime: Option<Int64>, usageExpireDateTime: Option<Int64>,
    noAuthRequired: Option<bool>, origin: Option<Int32>, rsaPublicExponent: Option<int>)

  /** PersistedKey: everything saveKeySync writes for one key. */
  datatype Record = Record(
    uid: Int32, alias: Utf16, securityLevel: Int32, skipLeafHack: bool, nspace: Int64, domain: Int32,
    keyPair: Option<KeyPair>, secretKey: Option<SecretKey>, chain: Chain, metadata: Option<Blob>,
    params: Params)
}
