# Password manager keychain: padding codec and keychain construction

A Dafny model of the engine of a browser password manager. It covers the two
parts of `Proj1_Starter/password-manager.js` that have behaviour:

- The padding codec. `pad` appends a NUL terminator to a password and fills
  it with NUL up to `MAX_PASSWORD_LENGTH` (64). The intent is that the
  padded length in characters does not reveal the password's length. That
  holds for passwords of at most 63 characters only: a 64-character password
  pads to 65 (see "## Findings"), and a longer one to its length plus one.
  Equal length in characters gives equal length in bytes, and so in
  ciphertext, only for ASCII passwords. `stringToBuffer` encodes text as
  UTF-8, where a character takes one to four bytes. The source never encrypts a padded password,
  because `set` has an empty body. `unpad` keeps everything before the first
  NUL. This is module `Padding` in `padding.dfy`. Both are pure functions.
  JavaScript's `padEnd` and `indexOf` are modelled as `PadEnd` and `IndexOf`.
  The lemmas prove the prefix and tail shape of a padded password, its
  length, the round trip `Unpad(Pad(p)) == p` for every password `p` that
  holds no NUL, and that `Unpad` is idempotent. A password holding a NUL
  does not round-trip: `Unpad` cuts it at its first NUL.
- Keychain construction. `Keychain.Init` imports the master password as a
  PBKDF2 key and stretches it (100 000 iterations, SHA-256) into a 256-bit
  HMAC master key. It then signs three fixed labels with that key:
  "hmac-key", "aes-key" and "password-check". The first two signatures
  become the HMAC key and the AES-GCM key. The third is stored in the clear
  as the password check. The constructor stores the public `data` (salt,
  empty `kvs`, password check) and the `secrets` (the two keys). This is
  module `PasswordManager` in `keychain.dfy`. The Web Crypto calls it makes
  are in module `WebCrypto` in `webcrypto.dfy`.

The cryptographic primitives are not modelled. PBKDF2 (section 5.2 of RFC
8018), HMAC-SHA-256 (RFC 2104), UTF-8 encoding and base64 encoding (section 4
of RFC 4648) are function-valued fields of a `Primitives` value the caller
passes in, so each property holds for any implementation of them. The model
uses two facts about them. An HMAC-SHA-256 tag is 32 bytes long; this is
built into its type and every proof may use it. The UTF-8 encoder is
injective; this is a hypothesis of `LabelsSeparateDomains` only.
What is modelled is the `CryptoKey` record that `importKey` and `deriveKey`
return, and the Web Crypto checks that concern the calls the source makes.
These are the algorithm and usage of a base key, an allowed and non-empty
usage list, the raw key length, a non-extractable PBKDF2 import, and a
positive iteration count and key length for `deriveKey`. Other checks of the
API are not modelled. `Init`'s proof shows that every call the source makes
passes those checks. In particular, the 32-byte HMAC output is a valid AES
key length.

The 16 random salt bytes that `getRandomBytes(16)` draws are a parameter of
`Init`.

## Model

| member | source | states |
|---|---|---|
| `Padding.PadEnd` | Proj1_Starter/password-manager.js:25 | `padEnd` with a one-character filler: the result starts with the input, is exactly the target length when the input is shorter (else the input's length), and is filler from the input's end on |
| `Padding.IndexOf` | Proj1_Starter/password-manager.js:29-30 | `indexOf`: -1 exactly when the character is absent, otherwise an index holding it with no earlier occurrence |
| `Padding.Unpad` | Proj1_Starter/password-manager.js:28-34 | the result is a prefix of the input, holds no NUL, and is either the whole input or followed in it by a NUL |
| `Padding.PadStartsWithPassword` | Proj1_Starter/password-manager.js:24-25 | `pad(p)` begins with `p` immediately followed by one NUL |
| `Padding.PadTailIsNul` | Proj1_Starter/password-manager.js:24-25 | every character of `pad(p)` at an index of at least `|p|` is NUL |
| `Padding.PadLength` | Proj1_Starter/password-manager.js:21-25 | `pad(p)` has length 64 when `|p| <= 63` and `|p| + 1` otherwise |
| `Padding.PadHidesLength` | Proj1_Starter/password-manager.js:21-25 | any two passwords of at most 63 characters pad to the same length |
| `Padding.UnpadWithoutNul` | Proj1_Starter/password-manager.js:29-32 | a string without NUL unpads to itself |
| `Padding.UnpadUnique` | Proj1_Starter/password-manager.js:28-34 | the prefix characterisation in `Unpad`'s contract has exactly one solution, `unpad(s)` |
| `Padding.UnpadPad` | Proj1_Starter/password-manager.js:23-34 | round trip: `unpad(pad(p)) == p` for every `p` without NUL |
| `Padding.UnpadIdempotent` | Proj1_Starter/password-manager.js:28-34 | `unpad(unpad(s)) == unpad(s)` |
| `Padding.PadLeaksMaxLength` | Proj1_Starter/password-manager.js:21-25 | as written, a 64-character password pads to 65 characters, a length no shorter password pads to |
| `Padding.PadFixed` | Proj1_Starter/password-manager.js:21-25 | corrected padding: every password of at most 64 characters pads to 65 characters, and the round trip through `unpad` still holds |
| `Padding.PadFixedHidesLength` | Proj1_Starter/password-manager.js:21-25 | any two passwords of at most 64 characters have equally long corrected paddings |
| `PasswordManager.MasterKey` | Proj1_Starter/password-manager.js:63-83 | the master key is an extractable HMAC-SHA-256 key usable only for signing, whose material is PBKDF2 of the password's UTF-8 bytes and the salt, with 100 000 iterations and 256 bits |
| `PasswordManager.LabelTag` | Proj1_Starter/password-manager.js:87-99 | a tag derived under a label is the HMAC-SHA-256 of the label's UTF-8 bytes under the PBKDF2 master key material |
| `PasswordManager.LabelsSeparateDomains` | Proj1_Starter/password-manager.js:87-123 | the labels "hmac-key", "aes-key" and "password-check" are pairwise distinct, and so are their UTF-8 encodings when the encoder is injective |
| `PasswordManager.Keychain.constructor` | Proj1_Starter/password-manager.js:46-51 | the constructor stores `data` and `secrets` unchanged |
| `PasswordManager.Keychain.Init` | Proj1_Starter/password-manager.js:59-140 | a fresh keychain with an empty `kvs` and the encoded 16-byte salt; its HMAC key, its AES-GCM key and its password check are derived under "hmac-key", "aes-key" and "password-check", with the key usages and export flags the source requests |

`Padding.Pad` (Proj1_Starter/password-manager.js:23-26) is covered by the
rows of its lemmas above. `WebCrypto.ImportRawKey`,
`WebCrypto.DerivePbkdf2HmacKey` and `WebCrypto.HmacSign` model the
`subtle.importKey` calls (lines 63-69, 102-116), the `subtle.deriveKey` call
(lines 72-83) and the `subtle.sign` calls (lines 87-99, 119-123). Their
preconditions are the checks Web Crypto makes. The rows of `MasterKey`,
`LabelTag` and `Keychain.Init` cover what they compute.

## Findings

| source | as written | input that shows it | evidently intended | confidence | as-written member | corrected member |
|---|---|---|---|---|---|---|
| Proj1_Starter/password-manager.js:21-25 | `pad` fills to `MAX_PASSWORD_LENGTH` characters, but the terminator takes one of them. A password of exactly 64 characters, which the comment on the constant admits, pads to 65 | any 64-character password, e.g. 64 times `a`, against any shorter one | every admitted password pads to the same number of characters | medium, not executed | `Padding.PadLeaksMaxLength` | `Padding.PadFixed` |

`Pad` stays as written. `PadFixed` pads to `MAX_PASSWORD_LENGTH + 1`
characters instead, and `PadFixedHidesLength` and `PadFixed`'s contract prove
a constant length in characters and the round trip for it. Nothing else in the model uses
padding, because the methods that would encrypt padded passwords have no
bodies.

## Left out

- `load`, `dump`, `get`, `set` and `remove` (Proj1_Starter/password-manager.js:146-176): their bodies are empty in the source. The model gives them no behaviour. So record encryption, fingerprints, the checksum and rollback or swap detection are not modelled.
- The cryptographic primitives PBKDF2, HMAC-SHA-256 and AES-GCM, and the UTF-8 and base64 conversions of Proj1_Starter/lib.js: these are foreign library calls. They are opaque capability functions here. The 32-byte length of an HMAC-SHA-256 tag is assumed everywhere; UTF-8 injectivity is a hypothesis of `LabelsSeparateDomains` only.
- Length hiding in bytes: the padding lemmas speak of characters. The length of a password's UTF-8 encoding, which is what would be encrypted, still depends on its non-ASCII characters after `Pad` or `PadFixed`. For example, `pad("é")` and `pad("a")` both have 64 characters, but their UTF-8 encodings have 65 and 64 bytes. Hiding the byte length is neither achieved by the source nor modelled.
- `getRandomBytes(16)`: randomness. The 16 salt bytes are a parameter of `Keychain.Init`.
- Detection of the `subtle` crypto object (Proj1_Starter/password-manager.js:8-15): runtime environment plumbing.
- Asynchrony: each `await` in `init` becomes an ordinary step in sequence.
- Web Crypto key usages the source never requests (`verify`, `deriveBits`, `wrapKey`, `unwrapKey`) are not in the `Usage` type.
- Strings: a Dafny `char` is a Unicode scalar value, not a UTF-16 code unit. The padding lemmas describe JavaScript's `length`, `padEnd` and `indexOf` for strings of Basic Multilingual Plane characters outside the surrogate range, where `|s|` equals the JavaScript `length`. A character outside that plane is two units in JavaScript but one `char` here. For example, a password of 32 such characters has JavaScript length 64 and pads to 65, while `PadLength` gives 64 for it. Surrogate pairs are not modelled.
- The text of Proj1_Starter/password-manager.js never closes `class Keychain` (opened at line 37): the `};` at line 176 closes only `remove`. The model assumes the evidently intended closing brace after `remove`, with `module.exports` at line 178 outside the class.
- Proj1_Starter/frontend.js: the user interface and `localStorage` persistence are not part of this model.
