# A verified model of the encode-decode text tools

The repository is a browser application of small text utilities. Three
pieces of it hold logic of their own, and this project models them in
Dafny:

- **Password text encryption** (`src/utils/crypto-utils.ts`). `encryptWithPassword`
  UTF-8 encodes the plaintext. It derives an AES-CBC key from the password
  with PBKDF2 under a fixed salt. It encrypts under a fixed IV and
  Base64-encodes the result. `decryptWithPassword` runs the same steps in
  reverse. Every failure is re-thrown as an `Error` with a fixed message
  prefix.
- **The encrypt/decrypt tool** (`ToolEncryptView.ts`). Its refs are the fields
  of the class `EncryptTool`. `processText` checks for blank input and
  password, dispatches on the operation type and updates the output.
  `clearFields` empties input and output but keeps the password.
- **The MD5 tool** (`ToolMd5View.ts`). `generateMd5` checks for blank input,
  hashes it, optionally keeps characters 8 to 23 of the digest, and maps
  the result to upper or lower case.

Modules:

- `JsRuntime` (`js_runtime.dfy`) holds the JavaScript built-ins the code relies
  on. These are thrown values, the `Result` of a call that may throw,
  `String.prototype.trim`, `substring` and ASCII case mapping.
- `CryptoUtils` (`crypto_utils.dfy`) is the crypto helpers module.
- `ToolEncryptView` (`tool_encrypt_view.dfy`) and `ToolMd5View` (`tool_md5_view.dfy`)
  are the two views.

The platform primitives are not in the repository. These are TextEncoder,
TextDecoder, `btoa`, `atob` and SubtleCrypto's `importKey`, `deriveKey`,
`encrypt` and `decrypt`. In the model they are the function-valued fields
of a `CryptoUtils.Provider`, so every theorem holds for every platform. The
properties the platform is assumed to have are predicates over the
provider. Only the lemmas that need them require them:

- `Utf8Inverse`: a default `TextDecoder` undoes TextEncoder except for one
  leading U+FEFF. TextEncoder encodes that character as EF BB BF, and a
  decoder with `ignoreBOM` false drops those bytes at the start of its input
  (the "UTF-8 decode" algorithm of the WHATWG Encoding Standard).
- `Utf8MarksBom`: the UTF-8 encoding starts with EF BB BF exactly when the
  text starts with U+FEFF (sections 3 and 6 of RFC 3629). Only the
  corrected decoder of "## Findings" needs this law.
- `Base64Inverse`: `atob` undoes a successful `btoa` of a binary string
  (section 4 of RFC 4648).
- `CbcInverse`: AES-CBC decryption undoes encryption under the same key and
  IV, PKCS#7 padding included (section 6.2 of NIST SP 800-38A, section 6.3 of
  RFC 5652).
- `Utf8KeepsAscii`: ASCII text encodes one byte per character (section 3 of
  RFC 3629).

Modelling each primitive as a function is what makes determinism hold.
The key derivation (PBKDF2, section 5.2 of RFC 8018) is deterministic, and
the module passes no random or time-dependent input to any step. The
`md5` of js-md5 is a parameter of `GenerateMd5`. A well-formed digest is assumed
to be 32 lower-case hexadecimal digits (`IsMd5Hex`). This is an assumption,
not a proven fact.

Three facts about the code shape the model:

- Decryption decodes the plaintext with a default `TextDecoder`
  (`crypto-utils.ts:56`). That decoder is non-fatal: it substitutes
  replacement characters and does not throw, and it drops a leading byte
  order mark. So `decodeUtf8` is a total function. It is not a decoder that
  fails on bad UTF-8.
- Key derivation failures are not surfaced as a separate error kind. They
  happen inside the `try` of both functions, so they are wrapped with the
  same prefix as every other failure (`crypto-utils.ts:123-126`,
  `160-164`).
- The crypto helpers accept any password, including the empty one. Only
  the view rejects a blank password (`ToolEncryptView.ts:47`).

## Model

| member | source | states |
|---|---|---|
| `CryptoUtils.BinaryString` | src/utils/crypto-utils.ts:18-24 | `String.fromCharCode(...bytes)` has one character per byte, and each character's code is that byte, so the result is a binary string `btoa` accepts |
| `CryptoUtils.BytesOfBinary` | src/utils/crypto-utils.ts:33-38 | the fallback loop produces as many bytes as the binary string has characters |
| `CryptoUtils.ToUint8` | src/utils/crypto-utils.ts:36 | storing `charCodeAt(i)` into a `Uint8Array` keeps the code modulo 256, so a character below 256 is stored as its own code |
| `CryptoUtils.Base64ToBuffer` | src/utils/crypto-utils.ts:29-39 | `base64ToBuffer`: it throws exactly when `atob` throws, with the same error. Otherwise it returns a fresh array whose length is the binary string's length and whose `bytes[i]` is `charCodeAt(i)` stored into a `Uint8Array` (modulo 256). It agrees with `Base64ToBytes` |
| `CryptoUtils.BufferToBase64` | src/utils/crypto-utils.ts:18-24 | `bufferToBase64` fails exactly when `btoa` rejects the binary string of the bytes. On a platform whose `atob` undoes `btoa`, decoding its output gives back that binary string |
| `CryptoUtils.Base64ToBytes` | src/utils/crypto-utils.ts:29-39 | `base64ToBuffer` as a value: `atob`'s error passes through unchanged. On success there is one byte per character of the binary string, each its code modulo 256 |
| `CryptoUtils.Base64RoundTrip` | src/utils/crypto-utils.ts:18-39 | on a platform whose `atob` undoes `btoa`, `base64ToBuffer` returns exactly the bytes that a successful `bufferToBase64` encoded |
| `CryptoUtils.BinaryStringRoundTrip` | src/utils/crypto-utils.ts:18-38 | converting bytes to a binary string and back with the fallback loop gives the original bytes |
| `CryptoUtils.BytesOfBinaryRoundTrip` | src/utils/crypto-utils.ts:33-38 | for a binary string the loop loses nothing: converting its bytes back gives the same string |
| `CryptoUtils.FixedIv` | src/utils/crypto-utils.ts:103-109 | the IV is exactly 16 bytes. Byte `i` is the seed's byte `i` where the seed has one and zero past its end, so a short seed leaves zeros and a long one is cut at 16 |
| `CryptoUtils.BuildFixedIv` | src/utils/crypto-utils.ts:104-109 | `new Uint8Array(16)` followed by `set(seed.subarray(0, 16))` fills a fresh array equal to `FixedIv(seed)` |
| `CryptoUtils.ModuleIv` | src/utils/crypto-utils.ts:104-109 | the IV is 16 bytes: the UTF-8 bytes of "FixedIV123456789" where there are any, and zero past them. Both directions build it the same way (lines 104-109 and 140-145), so they use byte-identical IVs |
| `CryptoUtils.ModuleIvIsSeedBytes` | src/utils/crypto-utils.ts:140-145 | the seed "FixedIV123456789" is 16 ASCII characters, so the IV both directions use is exactly its bytes, none zero, given that UTF-8 keeps ASCII |
| `CryptoUtils.SaltIsSeedBytes` | src/utils/crypto-utils.ts:68-69 | the PBKDF2 salt is the 19 bytes of "FixedSaltValue12345" |
| `CryptoUtils.GetKeyFromPassword` | src/utils/crypto-utils.ts:65-91 | the password's UTF-8 bytes are imported first. If the import throws, that error is the result and no derivation happens. Otherwise the result is PBKDF2 derivation under the fixed parameters from the imported material |
| `CryptoUtils.KeyDependsOnlyOnPasswordBytes` | src/utils/crypto-utils.ts:65-91 | passwords with equal UTF-8 bytes give equal keys (or equal failures). The password is the raw key material, and the derivation parameters are the constants PBKDF2, the fixed salt, 100000 iterations, SHA-256, and a non-extractable 256-bit AES-CBC key for encrypt and decrypt |
| `CryptoUtils.EncryptSteps` | src/utils/crypto-utils.ts:100-122 | the steps run in order: derive the key, then AES-CBC under the fixed IV on the plaintext's UTF-8 bytes, then Base64. The first step that throws decides the error, and the later steps do not run |
| `CryptoUtils.DecryptBytes` | src/utils/crypto-utils.ts:136-157 | the Base64 input is decoded before the key is derived. So a malformed input fails with `atob`'s error even when derivation would fail too. Then a key failure is the result. Otherwise the result is AES-CBC decryption of the decoded bytes under the fixed IV |
| `CryptoUtils.DecryptSteps` | src/utils/crypto-utils.ts:136-159 | it succeeds exactly when `DecryptBytes` does, and then returns those bytes decoded by the default `TextDecoder`. A failure is `DecryptBytes`' error unchanged |
| `CryptoUtils.Rethrow` | src/utils/crypto-utils.ts:123-126 | the `catch` passes a success through unchanged. A failure becomes an `Error` whose message is the prefix followed by the cause's message, or `String(cause)` for a non-`Error` |
| `CryptoUtils.EncryptWithPassword` | src/utils/crypto-utils.ts:96-127 | any failure surfaces as an `Error` whose message starts with `加密失败: `, and no other kind of thrown value escapes |
| `CryptoUtils.DecryptWithPassword` | src/utils/crypto-utils.ts:132-165 | any failure surfaces as an `Error` whose message starts with `解密失败 - 可能是密码错误或数据格式不正确: `, and no other kind of thrown value escapes |
| `CryptoUtils.EncryptIsComposition` | src/utils/crypto-utils.ts:96-122 | encryption succeeds exactly when key derivation, AES-CBC under the fixed IV, and `btoa` all succeed. Its value is then Base64(AES-CBC(key(password), IV, UTF-8(plaintext))) |
| `CryptoUtils.EncryptDependsOnlyOnBytes` | src/utils/crypto-utils.ts:96-122 | the ciphertext depends only on the UTF-8 bytes of plaintext and password, with no randomness. So two calls with the same arguments return the same string |
| `CryptoUtils.DecryptDependsOnlyOnBytes` | src/utils/crypto-utils.ts:132-159 | decryption depends only on the input string and the password's UTF-8 bytes |
| `CryptoUtils.RoundTrip` | src/utils/crypto-utils.ts:96-165 | under the platform laws (Base64 and AES-CBC pairs inverse, and the default decoder undoing the encoder except for one leading U+FEFF), whenever encryption succeeds, decrypting its output with the same password returns the plaintext less a leading U+FEFF. A plaintext that does not start with U+FEFF comes back exactly |
| `CryptoUtils.BomLostOnRoundTrip` | src/utils/crypto-utils.ts:56 | as written, the non-blank plaintext "\uFEFFhi" comes back from the round trip as "hi", not as itself |
| `CryptoUtils.DecodeKeepingBom` | src/utils/crypto-utils.ts:56 | a decoder with `ignoreBOM: true`: the default decoding, with U+FEFF put back exactly when the bytes start with EF BB BF |
| `CryptoUtils.DecodeKeepingBomInverse` | src/utils/crypto-utils.ts:56 | that decoder undoes TextEncoder for every text |
| `CryptoUtils.DecryptWithPasswordKeepingBom` | src/utils/crypto-utils.ts:132-165 | `decryptWithPassword` decoding with `ignoreBOM: true`. It has the same failures and the same prefix as `decryptWithPassword`, and its value is the decrypted bytes decoded with the BOM kept |
| `CryptoUtils.RoundTripKeepingBom` | src/utils/crypto-utils.ts:96-165 | with that decoder, decrypting a successful encryption with the same password returns the plaintext exactly, for every plaintext |
| `ToolEncryptView.Invoke` | src/views/appViews/ToolEncryptView.ts:62-64 | a rejection from the called helper is always an `Error`, carrying the encryption prefix for an encrypt call and the decryption prefix for a decrypt call |
| `ToolEncryptView.Dispatch` | src/views/appViews/ToolEncryptView.ts:61-65 | operation type "encrypt" calls `encryptWithPassword` and any other value calls `decryptWithPassword`. Both get the untrimmed input and password |
| `ToolEncryptView.EncryptTool.constructor` | src/views/appViews/ToolEncryptView.ts:29-33 | the initial state: empty texts, not processing, operation "encrypt" |
| `ToolEncryptView.EncryptTool.ProcessText` | src/views/appViews/ToolEncryptView.ts:36-79 | blank input, or else a blank password, changes no field and calls no cipher function. Otherwise it makes exactly the `Dispatch` call. The output becomes the result on success and keeps its old value on failure. `isProcessing` ends false, and input, password and operation type are unchanged |
| `ToolEncryptView.EncryptTool.SetOperationType` | src/views/appViews/ToolEncryptView.ts:132 | the radio buttons' update handler sets the operation type and changes no other field |
| `ToolEncryptView.EncryptTool.SetInputText` | src/views/appViews/ToolEncryptView.ts:158 | the input area's update handler sets the input text and changes no other field |
| `ToolEncryptView.EncryptTool.ClearFields` | src/views/appViews/ToolEncryptView.ts:113-117 | input and output become empty. Password, operation type and `isProcessing` are unchanged |
| `ToolEncryptView.EncryptThenDecryptOutput` | src/views/appViews/ToolEncryptView.ts:36-79 | processing in encrypt mode, switching to "decrypt", moving the output into the input and processing again leaves the original input, less a leading U+FEFF, in the output. This holds under the platform laws, when the first run succeeds with a non-blank output |
| `JsRuntime.TrimStart` | src/views/appViews/ToolEncryptView.ts:37 | the start of `trim`: the result is a suffix, everything dropped is ECMAScript whitespace, and the result does not start with whitespace |
| `JsRuntime.TrimEnd` | src/views/appViews/ToolEncryptView.ts:47 | the end of `trim`: the result is a prefix, everything dropped is whitespace, and the result does not end with whitespace |
| `JsRuntime.Trim` | src/views/appViews/ToolEncryptView.ts:37 | `trim` returns the contiguous infix of `s` between its leading and trailing whitespace. Everything dropped is whitespace, and the result neither starts nor ends with whitespace |
| `JsRuntime.BlankIffTrimEmpty` | src/views/appViews/ToolEncryptView.ts:37-47 | `!s.trim()`, the guard of both handlers (also `ToolMd5View.ts:34`), holds exactly when every character of `s` is whitespace, the empty string included |
| `JsRuntime.Substring` | src/views/appViews/ToolMd5View.ts:50 | `substring` clamps both indices into the string (negative to 0, past the end to its length) and takes the smaller as the start. The contract gives the result for every ordering of the two indices against 0 and the length: a slice, a suffix, a prefix, the whole string or the empty string. So `substring(8, 24)` of a 10-character string is its last two characters |
| `JsRuntime.ToUpperAscii` | src/views/appViews/ToolMd5View.ts:54 | `toUpperCase` keeps the length, leaves no lower-case letter, and changes each character at most in case |
| `JsRuntime.ToLowerAscii` | src/views/appViews/ToolMd5View.ts:54 | `toLowerCase` keeps the length, leaves no upper-case letter, and changes each character at most in case |
| `JsRuntime.LowerAfterUpper` | src/views/appViews/ToolMd5View.ts:54 | lower-casing after upper-casing equals lower-casing, and lower-casing a string with no upper-case letter changes nothing |
| `ToolMd5View.InCase` | src/views/appViews/ToolMd5View.ts:54 | case "upper" leaves no lower-case letter and any other case leaves no upper-case letter. The character is unchanged up to case |
| `ToolMd5View.FormatDigest` | src/views/appViews/ToolMd5View.ts:46-54 | type "16" keeps characters 8 to 23 of a digest of at least 24 characters. Any other type keeps the whole digest. Each kept character is upper-cased for case "upper" and lower-cased for any other case |
| `ToolMd5View.FormatMd5Hex` | src/views/appViews/ToolMd5View.ts:49-51 | for a 32-digit lower-case hex digest, the 16-character form has length 16 and is the middle slice `digest[8..24]` (exactly in lower case, up to case in upper case). The 32-character lower-case form is the digest itself |
| `ToolMd5View.Md5Tool.constructor` | src/views/appViews/ToolMd5View.ts:24-30 | the initial state: empty texts, not processing, type "32", case "lower" |
| `ToolMd5View.Md5Tool.GenerateMd5` | src/views/appViews/ToolMd5View.ts:33-68 | blank input changes no field and does not call `md5`. Otherwise `md5` gets the untrimmed input. On success the output is `FormatDigest` of the digest. On a thrown error the output is unchanged. `isProcessing` ends false either way, and input and options are unchanged |

## Findings

| source | as written | input that shows it | evidently intended | confidence | as-written member | corrected member |
|---|---|---|---|---|---|---|
| src/utils/crypto-utils.ts:56 | `new TextDecoder()` has `ignoreBOM` false, so it drops a leading EF BB BF that TextEncoder wrote for a leading U+FEFF | plaintext "\uFEFFhi" (not blank, so the tool passes it on) decrypts to "hi" | decryption returns exactly the encrypted text, using `new TextDecoder('utf-8', { ignoreBOM: true })` | not executed; follows from the Encoding Standard's decode algorithm | `CryptoUtils.BomLostOnRoundTrip` | `CryptoUtils.RoundTripKeepingBom` |

The encrypt tool `EncryptTool.ProcessText` calls the helper as written,
because that is what the repository runs. `DecryptWithPasswordKeepingBom` is
the corrected helper, and `RoundTripKeepingBom` proves it exact.

## Left out

- Environment selection in `getCryptoSubtle` and the dynamic `node:crypto` import are left out. So are the `Buffer` branches of the codec helpers. The model is the browser platform, with `window.crypto.subtle`, `btoa`/`atob` and the fallback loop, and TextEncoder/TextDecoder. Which runtime is present is plumbing, not logic of the module.
- The internals of PBKDF2, SHA-256, AES-CBC, PKCS#7 padding, Base64, UTF-8 and MD5 are not modelled. They live in the platform or in js-md5, so they are provider fields or parameters with only the laws listed above.
- Wrong-password and tamper detection are not modelled. They depend on the probability that a garbage block passes the padding check, which the code does not state.
- Malformed Base64 or invalid UTF-8 is not claimed to fail. TextDecoder is non-fatal, and whether `atob` rejects a given string belongs to the platform.
- A ciphertext being a multiple of 16 bytes is left out. It is a property of the platform's padding, not of this code.
- `String.fromCharCode(...bytes)` can throw a RangeError for a very large ciphertext, because of the platform's limit on spread arguments. The model does not capture that failure.
- `BytesOfBinary` treats each Dafny character as one JavaScript code unit. The model does not capture code points above U+FFFF, which `charCodeAt` would see as two units. `atob` never produces them.
- The async/Promise structure is not modelled. Each call is taken as completing before the next event, so there is no interleaving with other handlers while a call is awaited, and the `isProcessing` flag is only observable at the end.
- `console.error` logging, toast notifications, both `copyToClipboard` handlers and the render trees are left out. They are I/O and UI.
- The `AppToolView.ts`, `App.ts` and router files are not part of this model. They hold no logic of their own.
- ToUpperAscii: maps ASCII letters only, weaker than full Unicode `toUpperCase`. It is only applied to hexadecimal digests here.
- ToLowerAscii: maps ASCII letters only, weaker than full Unicode `toLowerCase`. It is only applied to hexadecimal digests here.
- Dafny strings hold Unicode scalar values. The model cannot express JavaScript strings with lone surrogates, which TextEncoder would replace with U+FFFD and which would break the UTF-8 law further than the leading byte order mark does.
- EncryptThenDecryptOutput: requires the Base64 output of the first run to be non-blank, because the platform model does not state that AES-CBC output is never empty.
