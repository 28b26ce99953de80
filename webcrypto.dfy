/** The slice of the Web Cryptography API that keychain construction uses.

    The primitives themselves (PBKDF2 with HMAC-SHA-256 as in section 5.2 of
    RFC 8018, HMAC-SHA-256 as in RFC 2104, UTF-8 and base64 text conversion)
    are not modelled: they are the function-valued fields of `Primitives`, a
    capability the caller hands in, so every property proved here holds for
    any implementation of them. What is modelled is the `CryptoKey` record
    that `importKey` and `deriveKey` build, and those checks the API makes on
    their arguments that concern the calls of this model. */
module WebCrypto {

  newtype byte = b: int | 0 <= b < 256

  type Bytes = seq<byte>

  /** Length in bytes of an HMAC-SHA-256 tag. */
  const DigestLength: nat := 32

  /** An HMAC-SHA-256 tag: always `DigestLength` bytes long. */
  type Digest = s: Bytes | |s| == DigestLength witness seq(32, _ => 0 as byte)

  /** The algorithms a key can be bound to. */
  datatype Algorithm = Pbkdf2 | HmacSha256 | AesGcm

  /** The operations a key can be allowed to perform. */
  datatype Usage = DeriveKey | Sign | Encrypt | Decrypt

  /** A `CryptoKey`: raw key material bound to one algorithm, whether it may
      be exported, and the operations it may be used for. */
  datatype CryptoKey = CryptoKey(algorithm: Algorithm, material: Bytes, extractable: bool, usages: set<Usage>)

  /** The injected primitives. */
  datatype Primitives = Primitives(
    utf8Encode: string -> Bytes,                 // `stringToBuffer`
    base64Encode: Bytes -> string,               // `encodeBuffer`
    pbkdf2: (Bytes, Bytes, nat, nat) -> Bytes,   // password, salt, iterations, length in bits
    hmacSha256: (Bytes, Bytes) -> Digest)        // key, message

  /** Raw key lengths, in bytes, that an AES key can be imported with. */
  predicate AesKeyLength(n: nat)
  {
    n == 16 || n == 24 || n == 32
  }

  /** Whether `importKey("raw", keyData, algorithm, …)` accepts the key data
      (a PBKDF2 key must also be non-extractable). */
  predicate ImportAccepts(keyData: Bytes, algorithm: Algorithm, extractable: bool)
  {
    match algorithm
    case Pbkdf2 => !extractable
    case HmacSha256 => |keyData| > 0
    case AesGcm => AesKeyLength(|keyData|)
  }

  /** The usages each algorithm admits. */
  function AllowedUsages(algorithm: Algorithm): (allowed: set<Usage>)
  {
    match algorithm
    case Pbkdf2 => {DeriveKey}
    case HmacSha256 => {Sign}
    case AesGcm => {Encrypt, Decrypt}
  }

  /** `importKey("raw", keyData, algorithm, extractable, usages)`: binds the
      bytes to the algorithm, export flag and usages. */
  function ImportRawKey(keyData: Bytes, algorithm: Algorithm, extractable: bool, usages: set<Usage>): (key: CryptoKey)
    requires ImportAccepts(keyData, algorithm, extractable)
    requires usages != {} && usages <= AllowedUsages(algorithm)
  {
    CryptoKey(algorithm, keyData, extractable, usages)
  }

  /** `deriveKey({name: "PBKDF2", salt, iterations, hash: "SHA-256"}, baseKey,
      {name: "HMAC", hash: "SHA-256", length}, extractable, usages)`: an HMAC
      key whose material is PBKDF2 of the base key's material. */
  function DerivePbkdf2HmacKey(crypto: Primitives, baseKey: CryptoKey, salt: Bytes, iterations: nat, length: nat,
                               extractable: bool, usages: set<Usage>): (key: CryptoKey)
    requires baseKey.algorithm == Pbkdf2 && DeriveKey in baseKey.usages
    requires iterations > 0 && length > 0
    requires usages != {} && usages <= AllowedUsages(HmacSha256)
  {
    CryptoKey(HmacSha256, crypto.pbkdf2(baseKey.material, salt, iterations, length), extractable, usages)
  }

  /** `sign("HMAC", key, message)`: the HMAC-SHA-256 tag of the message under
      an HMAC key allowed to sign. */
  function HmacSign(crypto: Primitives, key: CryptoKey, message: Bytes): (tag: Digest)
    requires key.algorithm == HmacSha256 && Sign in key.usages
  {
    crypto.hmacSha256(key.material, message)
  }
}
