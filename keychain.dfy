/** The keychain object and its construction.

    `Keychain.Init` derives, from the master password and a fresh random
    salt, a master key (PBKDF2 with HMAC-SHA-256), and from the master key
    three tags by signing three fixed labels: the material of the HMAC key,
    the material of the AES-GCM key, and the password check stored in the
    clear. The public part (`Data`) and the secret keys (`Secrets`) are handed
    to the constructor, which stores them. */
module PasswordManager {
  import opened WebCrypto

  /** PBKDF2 iteration count. */
  const Pbkdf2Iterations: nat := 100000

  /** Length in bytes of the random salt drawn by `Init`. */
  const SaltLength: nat := 16

  /** Length in bits of the master key. */
  const MasterKeyBits: nat := 256

  /** The labels signed with the master key. */
  const HmacKeyLabel: string := "hmac-key"
  const AesKeyLabel: string := "aes-key"
  const PasswordCheckLabel: string := "password-check"

  /** The public part of a keychain: the base64 text of the salt, the
      key-value store, and the base64 text of the password check. No
      operation of this model writes an entry into `kvs`. */
  datatype Data = Data(salt: string, kvs: map<string, string>, passwordCheck: string)

  /** The secret part of a keychain: the HMAC key and the AES-GCM key. The
      master key is not among them. */
  datatype Secrets = Secrets(hmacKey: CryptoKey, aesKey: CryptoKey)

  /** The master key for a password and salt: the password's UTF-8 bytes,
      imported as a non-extractable PBKDF2 key, stretched by PBKDF2 into an
      extractable 256-bit HMAC-SHA-256 signing key. */
  function MasterKey(crypto: Primitives, password: string, salt: Bytes): (key: CryptoKey)
    ensures key.algorithm == HmacSha256 && key.usages == {Sign} && key.extractable
    ensures key.material == crypto.pbkdf2(crypto.utf8Encode(password), salt, Pbkdf2Iterations, MasterKeyBits)
  {
    var masterKeyMaterial := ImportRawKey(crypto.utf8Encode(password), Pbkdf2, false, {DeriveKey});
    DerivePbkdf2HmacKey(crypto, masterKeyMaterial, salt, Pbkdf2Iterations, MasterKeyBits, true, {Sign})
  }

  /** The tag derived under `domainLabel`: the master key's HMAC-SHA-256 signature
      of the UTF-8 bytes of `domainLabel`. */
  function LabelTag(crypto: Primitives, password: string, salt: Bytes, domainLabel: string): (tag: Digest)
    ensures tag == crypto.hmacSha256(
                     crypto.pbkdf2(crypto.utf8Encode(password), salt, Pbkdf2Iterations, MasterKeyBits),
                     crypto.utf8Encode(domainLabel))
  {
    HmacSign(crypto, MasterKey(crypto, password, salt), crypto.utf8Encode(domainLabel))
  }

  /** Domain separation: the three labels are pairwise distinct, and so are
      the messages signed under them whenever the UTF-8 encoder is injective. */
  lemma LabelsSeparateDomains(crypto: Primitives)
    requires forall s, t :: crypto.utf8Encode(s) == crypto.utf8Encode(t) ==> s == t
    ensures HmacKeyLabel != AesKeyLabel && AesKeyLabel != PasswordCheckLabel && HmacKeyLabel != PasswordCheckLabel
    ensures crypto.utf8Encode(HmacKeyLabel) != crypto.utf8Encode(AesKeyLabel)
    ensures crypto.utf8Encode(AesKeyLabel) != crypto.utf8Encode(PasswordCheckLabel)
    ensures crypto.utf8Encode(HmacKeyLabel) != crypto.utf8Encode(PasswordCheckLabel)
  {
  }

  class Keychain {
    /** Public information. */
    var data: Data
    /** The secret keys. */
    var secrets: Secrets

    constructor (data: Data, secrets: Secrets)
      ensures this.data == data && this.secrets == secrets
    {
      this.data := data;
      this.secrets := secrets;
    }

    /** An empty keychain for `password`. `randomSalt` stands for the 16
        bytes `getRandomBytes(16)` draws. The Web Crypto preconditions of
        every call (algorithm, usages, AES key length) are met along the way. */
    static method Init(crypto: Primitives, password: string, randomSalt: Bytes) returns (keychain: Keychain)
      requires |randomSalt| == SaltLength
      ensures fresh(keychain)
      ensures keychain.data.salt == crypto.base64Encode(randomSalt)
      ensures keychain.data.kvs == map[]
      ensures keychain.data.passwordCheck == crypto.base64Encode(LabelTag(crypto, password, randomSalt, PasswordCheckLabel))
      ensures keychain.secrets.hmacKey == CryptoKey(HmacSha256, LabelTag(crypto, password, randomSalt, HmacKeyLabel), true, {Sign})
      ensures keychain.secrets.aesKey == CryptoKey(AesGcm, LabelTag(crypto, password, randomSalt, AesKeyLabel), true, {Encrypt, Decrypt})
    {
      var salt := randomSalt;
      var masterKeyMaterial := ImportRawKey(crypto.utf8Encode(password), Pbkdf2, false, {DeriveKey});
      var masterKey := DerivePbkdf2HmacKey(crypto, masterKeyMaterial, salt, Pbkdf2Iterations, MasterKeyBits, true, {Sign});
      var hmacKeyMaterial := HmacSign(crypto, masterKey, crypto.utf8Encode(HmacKeyLabel));
      var aesKeyMaterial := HmacSign(crypto, masterKey, crypto.utf8Encode(AesKeyLabel));
      var hmacKey := ImportRawKey(hmacKeyMaterial, HmacSha256, true, {Sign});
      var aesKey := ImportRawKey(aesKeyMaterial, AesGcm, true, {Encrypt, Decrypt});
      var passwordCheck := HmacSign(crypto, masterKey, crypto.utf8Encode(PasswordCheckLabel));
      var data := Data(crypto.base64Encode(salt), map[], crypto.base64Encode(passwordCheck));
      var secrets := Secrets(hmacKey, aesKey);
      keychain := new Keychain(data, secrets);
    }
  }
}
