/** The password-based text encryption of `crypto-utils.ts`: UTF-8 encode,
    derive an AES-CBC key from the password with PBKDF2 under a fixed salt,
    encrypt under a fixed IV, Base64-encode; and the same steps in reverse.

    The cryptographic and codec primitives belong to the platform
    (WebCrypto's SubtleCrypto, TextEncoder, TextDecoder, btoa, atob) and are
    not part of this model: they are the function-valued fields of a
    `Provider`. Laws assumed of them (inverse pairs, ASCII transparency of
    UTF-8) are predicates over the provider, required only by the lemmas
    that depend on them. What the repository itself decides is concrete:
    the constants, the IV construction, the binary-string loop, the order
    of the steps and the error wrapping. */
module CryptoUtils {
  import opened JsRuntime

  newtype byte = x: int | 0 <= x < 256

  /** AES block size, and the length of `new Uint8Array(16)`. */
  const IvLength: nat := 16
  const IvSeed: string := "FixedIV123456789"
  const SaltSeed: string := "FixedSaltValue12345"
  const Pbkdf2Iterations: nat := 100000
  const AesKeyBits: nat := 256
  const EncryptFailurePrefix: string := "加密失败: "
  const DecryptFailurePrefix: string := "解密失败 - 可能是密码错误或数据格式不正确: "

  /** A non-extractable WebCrypto key: material the provider holds and
      never hands out. */
  datatype CryptoKey = CryptoKey(material: seq<byte>)

  /** Arguments of `importKey(format, keyData, {name: algorithm}, extractable, usages)`. */
  datatype ImportKeyCall = ImportKeyCall(
    format: string, keyData: seq<byte>, algorithm: string, extractable: bool, usages: seq<string>)

  /** Arguments of `deriveKey({name: algorithm, salt, iterations, hash}, baseKey,
      {name: derivedAlgorithm, length: derivedLength}, extractable, usages)`, less the base key. */
  datatype DeriveKeyCall = DeriveKeyCall(
    algorithm: string, salt: seq<byte>, iterations: nat, hash: string,
    derivedAlgorithm: string, derivedLength: nat, extractable: bool, usages: seq<string>)

  /** The `{ name, iv }` algorithm argument of `encrypt` and `decrypt`. */
  datatype CipherAlgorithm = CipherAlgorithm(name: string, iv: seq<byte>)

  /** The browser platform the module runs on. */
  datatype Provider = Provider(
    encodeUtf8: string -> seq<byte>,     // new TextEncoder().encode
    decodeUtf8: seq<byte> -> string,     // new TextDecoder().decode (non-fatal, drops a leading BOM)
    btoa: string -> Result<string>,
    atob: string -> Result<string>,
    importKey: ImportKeyCall -> Result<CryptoKey>,
    deriveKey: (DeriveKeyCall, CryptoKey) -> Result<CryptoKey>,
    encrypt: (CipherAlgorithm, CryptoKey, seq<byte>) -> Result<seq<byte>>,
    decrypt: (CipherAlgorithm, CryptoKey, seq<byte>) -> Result<seq<byte>>)

  // ---------------------------------------------------------------------
  // Binary strings and Base64
  // ---------------------------------------------------------------------

  /** A string whose every code point fits in one byte, as `atob` returns
      and `btoa` accepts. */
  predicate IsBinaryString(s: string) {
    forall i :: 0 <= i < |s| ==> s[i] as int < 256
  }

  /** `String.fromCharCode(...bytes)`: one character per byte, carrying
      the byte as its code. */
  function BinaryString(bytes: seq<byte>): (s: string)
    ensures |s| == |bytes| && IsBinaryString(s)
    ensures forall i :: 0 <= i < |s| ==> s[i] as int == bytes[i] as int
  {
    seq(|bytes|, i requires 0 <= i < |bytes| => bytes[i] as int as char)
  }

  /** Storing `charCodeAt(i)` into a `Uint8Array` keeps the code modulo
      256, so a character of a binary string is stored unchanged. */
  function ToUint8(c: char): (b: byte)
    ensures (b as int - c as int) % 256 == 0
    ensures c as int < 256 ==> b as int == c as int
  {
    (c as int % 256) as byte
  }

  /** What the fallback loop of `base64ToBuffer` leaves in its array. */
  function BytesOfBinary(s: string): (bytes: seq<byte>)
    ensures |bytes| == |s|
  {
    seq(|s|, i requires 0 <= i < |s| => ToUint8(s[i]))
  }

  /** Turning bytes into a binary string and back loses nothing. */
  lemma BinaryStringRoundTrip(bytes: seq<byte>)
    ensures BytesOfBinary(BinaryString(bytes)) == bytes
  {
    var s := BinaryString(bytes);
    forall i | 0 <= i < |bytes| ensures BytesOfBinary(s)[i] == bytes[i] {
      assert s[i] as int == bytes[i] as int;
    }
  }

  /** A binary string survives the conversion to bytes and back. */
  lemma BytesOfBinaryRoundTrip(s: string)
    requires IsBinaryString(s)
    ensures BinaryString(BytesOfBinary(s)) == s
  {
    var b := BytesOfBinary(s);
    forall i | 0 <= i < |s| ensures BinaryString(b)[i] == s[i] {
      assert b[i] as int == s[i] as int;
    }
  }

  /** `bufferToBase64`: `btoa(String.fromCharCode(...bytes))`. It fails
      exactly when `btoa` rejects the binary string, and on a platform
      whose `atob` undoes `btoa`, decoding its output gives back the
      bytes' binary string. */
  function BufferToBase64(p: Provider, bytes: seq<byte>): (r: Result<string>)
    ensures r.Threw? <==> p.btoa(BinaryString(bytes)).Threw?
    ensures Base64Inverse(p) && r.Ok? ==> p.atob(r.value) == Ok(BinaryString(bytes))
  {
    p.btoa(BinaryString(bytes))
  }

  /** `base64ToBuffer` as a value: `atob` (whose error passes through),
      then one byte per character of the binary string it returns. */
  function Base64ToBytes(p: Provider, base64: string): (r: Result<seq<byte>>)
    ensures r.Threw? <==> p.atob(base64).Threw?
    ensures r.Threw? ==> r.error == p.atob(base64).error
    ensures r.Ok? ==> |r.value| == |p.atob(base64).value|
    ensures r.Ok? ==> forall i :: 0 <= i < |r.value| ==> r.value[i] == ToUint8(p.atob(base64).value[i])
  {
    var binaryString :- p.atob(base64);
    Ok(BytesOfBinary(binaryString))
  }

  /** On a platform whose `atob` undoes `btoa`, `base64ToBuffer` undoes a
      successful `bufferToBase64`. */
  lemma Base64RoundTrip(p: Provider, bytes: seq<byte>)
    requires Base64Inverse(p)
    requires BufferToBase64(p, bytes).Ok?
    ensures Base64ToBytes(p, BufferToBase64(p, bytes).value) == Ok(bytes)
  {
    BinaryStringRoundTrip(bytes);
  }

  /** `base64ToBuffer`: decodes with `atob` (which may throw) and copies the
      binary string into a fresh `Uint8Array` one character code at a time. */
  method Base64ToBuffer(p: Provider, base64: string) returns (r: Result<array<byte>>)
    ensures r.Threw? <==> p.atob(base64).Threw?
    ensures r.Threw? ==> r.error == p.atob(base64).error
    ensures r.Ok? ==> fresh(r.value)
    ensures r.Ok? ==> r.value.Length == |p.atob(base64).value|
    ensures r.Ok? ==> forall i :: 0 <= i < r.value.Length ==> r.value[i] == ToUint8(p.atob(base64).value[i])
    ensures r.Ok? ==> Base64ToBytes(p, base64) == Ok(r.value[..])
  {
    var decoded := p.atob(base64);
    if decoded.Threw? {
      return Threw(decoded.error);
    }
    var binaryString := decoded.value;
    var bytes := new byte[|binaryString|];
    for i := 0 to |binaryString|
      invariant forall j :: 0 <= j < i ==> bytes[j] == ToUint8(binaryString[j])
    {
      bytes[i] := ToUint8(binaryString[i]);
    }
    assert bytes[..] == BytesOfBinary(binaryString);
    return Ok(bytes);
  }

  // ---------------------------------------------------------------------
  // The fixed IV
  // ---------------------------------------------------------------------

  function Min(a: nat, b: nat): nat {
    if a <= b then a else b
  }

  /** The IV built from the bytes of a seed: sixteen bytes, the seed's
      first bytes where it has them and zero past its end. */
  function FixedIv(seed: seq<byte>): (iv: seq<byte>)
    ensures |iv| == IvLength
    ensures forall i :: 0 <= i < IvLength ==> iv[i] == if i < |seed| then seed[i] else 0
  {
    var n := Min(|seed|, IvLength);
    seed[..n] + seq(IvLength - n, _ => 0)
  }

  /** `new Uint8Array(16)` followed by `set(seed.subarray(0, 16))`. */
  method BuildFixedIv(seed: seq<byte>) returns (iv: array<byte>)
    ensures fresh(iv)
    ensures iv[..] == FixedIv(seed)
  {
    iv := new byte[IvLength](_ => 0);
    var prefix := seed[..Min(|seed|, IvLength)];
    forall i | 0 <= i < |prefix| {
      iv[i] := prefix[i];
    }
  }

  /** The IV both directions use: the seed "FixedIV123456789" as UTF-8,
      copied into sixteen zeroed bytes. */
  function ModuleIv(p: Provider): (iv: seq<byte>)
    ensures |iv| == IvLength
    ensures var seed := p.encodeUtf8(IvSeed);
      forall i :: 0 <= i < IvLength ==> iv[i] == if i < |seed| then seed[i] else 0
  {
    FixedIv(p.encodeUtf8(IvSeed))
  }

  function AesCbc(iv: seq<byte>): CipherAlgorithm {
    CipherAlgorithm("AES-CBC", iv)
  }

  // ---------------------------------------------------------------------
  // Key derivation
  // ---------------------------------------------------------------------

  /** The raw, non-extractable PBKDF2 key material made from the password. */
  function KeyImport(p: Provider, password: string): ImportKeyCall {
    ImportKeyCall("raw", p.encodeUtf8(password), "PBKDF2", false, ["deriveKey"])
  }

  /** The derivation parameters, none of which depends on the password. */
  function KeyDerivation(p: Provider): DeriveKeyCall {
    DeriveKeyCall("PBKDF2", p.encodeUtf8(SaltSeed), Pbkdf2Iterations, "SHA-256",
                  "AES-CBC", AesKeyBits, false, ["encrypt", "decrypt"])
  }

  /** `getKeyFromPassword`: import the password's UTF-8 bytes as raw PBKDF2
      material, then derive the AES-CBC key under the fixed parameters. An
      import failure is the result and no derivation happens; otherwise the
      derivation's outcome is the result. */
  function GetKeyFromPassword(p: Provider, password: string): (r: Result<CryptoKey>)
    ensures var imported := p.importKey(KeyImport(p, password));
      imported.Threw? ==> r == Threw(imported.error)
    ensures var imported := p.importKey(KeyImport(p, password));
      imported.Ok? ==> r == p.deriveKey(KeyDerivation(p), imported.value)
  {
    var keyMaterial :- p.importKey(KeyImport(p, password));
    p.deriveKey(KeyDerivation(p), keyMaterial)
  }

  /** The key depends on the password through its UTF-8 bytes alone: the
      salt, iteration count, hash and key shape are constants. */
  lemma KeyDependsOnlyOnPasswordBytes(p: Provider, password1: string, password2: string)
    requires p.encodeUtf8(password1) == p.encodeUtf8(password2)
    ensures GetKeyFromPassword(p, password1) == GetKeyFromPassword(p, password2)
    ensures KeyImport(p, password1).keyData == p.encodeUtf8(password1)
    ensures KeyDerivation(p) == DeriveKeyCall("PBKDF2", p.encodeUtf8("FixedSaltValue12345"), 100000,
                                              "SHA-256", "AES-CBC", 256, false, ["encrypt", "decrypt"])
  {
  }

  // ---------------------------------------------------------------------
  // encryptWithPassword / decryptWithPassword
  // ---------------------------------------------------------------------

  /** The body of the `try` in `encryptWithPassword`, in its order: derive
      the key, encrypt the plaintext's UTF-8 bytes under the fixed IV,
      Base64-encode. The first step that throws decides the error, and the
      steps after it do not run. */
  function EncryptSteps(p: Provider, plaintext: string, password: string): (r: Result<string>)
    ensures var key := GetKeyFromPassword(p, password);
      key.Threw? ==> r == Threw(key.error)
    ensures var key := GetKeyFromPassword(p, password);
      key.Ok? ==>
        var cipher := p.encrypt(AesCbc(ModuleIv(p)), key.value, p.encodeUtf8(plaintext));
        && (cipher.Threw? ==> r == Threw(cipher.error))
        && (cipher.Ok? ==> r == BufferToBase64(p, cipher.value))
  {
    var fixedIv := ModuleIv(p);
    var key :- GetKeyFromPassword(p, password);
    var encrypted :- p.encrypt(AesCbc(fixedIv), key, p.encodeUtf8(plaintext));
    BufferToBase64(p, encrypted)
  }

  /** The body of the `try` in `decryptWithPassword` up to the AES-CBC
      decryption, in its order: the Base64 input is decoded before the key
      is derived, so a malformed input fails with `atob`'s error even when
      key derivation would fail too. */
  function DecryptBytes(p: Provider, encryptedData: string, password: string): (r: Result<seq<byte>>)
    ensures p.atob(encryptedData).Threw? ==> r == Threw(p.atob(encryptedData).error)
    ensures var key := GetKeyFromPassword(p, password);
      p.atob(encryptedData).Ok? && key.Threw? ==> r == Threw(key.error)
    ensures var key := GetKeyFromPassword(p, password);
      p.atob(encryptedData).Ok? && key.Ok? ==>
        r == p.decrypt(AesCbc(ModuleIv(p)), key.value, Base64ToBytes(p, encryptedData).value)
  {
    var fixedIv := ModuleIv(p);
    var ciphertext :- Base64ToBytes(p, encryptedData);
    var key :- GetKeyFromPassword(p, password);
    p.decrypt(AesCbc(fixedIv), key, ciphertext)
  }

  /** The whole body of the `try` in `decryptWithPassword`: the decrypted
      bytes, if any, decoded by a default `TextDecoder`. */
  function DecryptSteps(p: Provider, encryptedData: string, password: string): (r: Result<string>)
    ensures r.Ok? <==> DecryptBytes(p, encryptedData, password).Ok?
    ensures r.Threw? ==> r.error == DecryptBytes(p, encryptedData, password).error
    ensures r.Ok? ==> r.value == p.decodeUtf8(DecryptBytes(p, encryptedData, password).value)
  {
    var decrypted :- DecryptBytes(p, encryptedData, password);
    Ok(p.decodeUtf8(decrypted))
  }

  /** The `catch` of both functions: whatever was thrown is re-thrown as a
      new `Error` whose message is the prefix followed by the cause's text. */
  function Rethrow(prefix: string, attempt: Result<string>): (r: Result<string>)
    ensures r.Ok? <==> attempt.Ok?
    ensures r.Ok? ==> r.value == attempt.value
    ensures r.Threw? ==> r.error.ErrorObject? && prefix <= r.error.message
    ensures r.Threw? ==> r.error.message[|prefix|..] == Describe(attempt.error)
  {
    match attempt
    case Ok(_) => attempt
    case Threw(cause) => Threw(ErrorObject(prefix + Describe(cause)))
  }

  /** `encryptWithPassword`: every failure surfaces as an `Error` whose
      message starts with the encryption prefix. */
  function EncryptWithPassword(p: Provider, plaintext: string, password: string): (r: Result<string>)
    ensures r.Threw? ==> r.error.ErrorObject? && EncryptFailurePrefix <= r.error.message
  {
    Rethrow(EncryptFailurePrefix, EncryptSteps(p, plaintext, password))
  }

  /** `decryptWithPassword`: every failure surfaces as an `Error` whose
      message starts with the decryption prefix. */
  function DecryptWithPassword(p: Provider, encryptedData: string, password: string): (r: Result<string>)
    ensures r.Threw? ==> r.error.ErrorObject? && DecryptFailurePrefix <= r.error.message
  {
    Rethrow(DecryptFailurePrefix, DecryptSteps(p, encryptedData, password))
  }

  /** Encryption succeeds exactly when key derivation, AES-CBC under the
      fixed IV and Base64 encoding all succeed, and its value is then
      Base64(AES-CBC(key(password), IV, UTF-8(plaintext))). */
  lemma EncryptIsComposition(p: Provider, plaintext: string, password: string)
    ensures
      var key := GetKeyFromPassword(p, password);
      var cipher := if key.Ok? then p.encrypt(AesCbc(ModuleIv(p)), key.value, p.encodeUtf8(plaintext))
                    else Threw(key.error);
      var encoded := if cipher.Ok? then p.btoa(BinaryString(cipher.value)) else Threw(cipher.error);
      && (EncryptWithPassword(p, plaintext, password).Ok? <==> encoded.Ok?)
      && (encoded.Ok? ==> EncryptWithPassword(p, plaintext, password).value == encoded.value)
  {
  }

  /** No input other than the plaintext's and password's bytes enters the
      result: nothing random, no clock, no state. Equal inputs therefore
      give equal ciphertexts. */
  lemma EncryptDependsOnlyOnBytes(p: Provider, text1: string, password1: string, text2: string, password2: string)
    requires p.encodeUtf8(text1) == p.encodeUtf8(text2)
    requires p.encodeUtf8(password1) == p.encodeUtf8(password2)
    ensures EncryptWithPassword(p, text1, password1) == EncryptWithPassword(p, text2, password2)
  {
    KeyDependsOnlyOnPasswordBytes(p, password1, password2);
  }

  /** Decryption results likewise depend only on the input string and the
      password's bytes. */
  lemma DecryptDependsOnlyOnBytes(p: Provider, data: string, password1: string, password2: string)
    requires p.encodeUtf8(password1) == p.encodeUtf8(password2)
    ensures DecryptWithPassword(p, data, password1) == DecryptWithPassword(p, data, password2)
  {
    KeyDependsOnlyOnPasswordBytes(p, password1, password2);
  }

  // ---------------------------------------------------------------------
  // Laws assumed of the platform
  // ---------------------------------------------------------------------

  /** TextDecoder undoes TextEncoder except for one leading byte order
      mark: TextEncoder encodes U+FEFF as EF BB BF, and a default
      TextDecoder (`ignoreBOM` false) drops those bytes at the start of its
      input (the "UTF-8 decode" algorithm of the WHATWG Encoding Standard). Every Dafny
      string is a sequence of Unicode scalar values, which UTF-8 encodes
      without loss. */
  ghost predicate Utf8Inverse(p: Provider) {
    forall t :: p.decodeUtf8(p.encodeUtf8(t)) == StripBom(t)
  }

  /** The UTF-8 encoding starts with the bytes EF BB BF exactly when the
      text starts with U+FEFF (sections 3 and 6 of RFC 3629). */
  ghost predicate Utf8MarksBom(p: Provider) {
    forall t :: HasBomBytes(p.encodeUtf8(t)) <==> StartsWithBom(t)
  }

  /** `atob` undoes a successful `btoa` of a binary string (section 4 of
      RFC 4648). */
  ghost predicate Base64Inverse(p: Provider) {
    forall s :: IsBinaryString(s) && p.btoa(s).Ok? ==> p.atob(p.btoa(s).value) == Ok(s)
  }

  /** AES-CBC decryption under the same key and IV undoes a successful
      encryption, PKCS#7 padding included (section 6.2 of NIST SP 800-38A,
      section 6.3 of RFC 5652). */
  ghost predicate CbcInverse(p: Provider) {
    forall iv, key, bytes :: p.encrypt(AesCbc(iv), key, bytes).Ok? ==>
      p.decrypt(AesCbc(iv), key, p.encrypt(AesCbc(iv), key, bytes).value) == Ok(bytes)
  }

  const Bom: char := '\U{FEFF}'

  predicate StartsWithBom(t: string) {
    |t| > 0 && t[0] == Bom
  }

  /** The text without one leading byte order mark, if it has one. */
  function StripBom(t: string): (r: string)
    ensures StartsWithBom(t) ==> [Bom] + r == t
    ensures !StartsWithBom(t) ==> r == t
  {
    if StartsWithBom(t) then t[1..] else t
  }

  predicate HasBomBytes(bytes: seq<byte>) {
    |bytes| >= 3 && bytes[0] == 0xEF && bytes[1] == 0xBB && bytes[2] == 0xBF
  }

  ghost predicate Lawful(p: Provider) {
    Utf8Inverse(p) && Base64Inverse(p) && CbcInverse(p)
  }

  /** Text made of ASCII characters is encoded one byte per character,
      each byte the character's code (section 3 of RFC 3629). */
  ghost predicate Utf8KeepsAscii(p: Provider) {
    forall t :: IsAscii(t) ==> p.encodeUtf8(t) == AsciiBytes(t)
  }

  predicate IsAscii(t: string) {
    forall i :: 0 <= i < |t| ==> t[i] as int < 128
  }

  function AsciiBytes(t: string): (bytes: seq<byte>)
    requires IsAscii(t)
    ensures |bytes| == |t|
  {
    seq(|t|, i requires 0 <= i < |t| => t[i] as int as byte)
  }

  // ---------------------------------------------------------------------
  // Properties
  // ---------------------------------------------------------------------

  /** Round trip: under the inverse laws, decrypting what encryption
      returned, with the same password, gives back the plaintext, less a
      leading byte order mark that the default TextDecoder drops. */
  lemma RoundTrip(p: Provider, plaintext: string, password: string)
    requires Lawful(p)
    requires EncryptWithPassword(p, plaintext, password).Ok?
    ensures DecryptWithPassword(p, EncryptWithPassword(p, plaintext, password).value, password)
            == Ok(StripBom(plaintext))
    ensures !StartsWithBom(plaintext) ==>
      DecryptWithPassword(p, EncryptWithPassword(p, plaintext, password).value, password) == Ok(plaintext)
  {
    var iv := ModuleIv(p);
    var key := GetKeyFromPassword(p, password).value;
    var bytes := p.encodeUtf8(plaintext);
    var ciphertext := p.encrypt(AesCbc(iv), key, bytes).value;
    var binary := BinaryString(ciphertext);
    var encoded := EncryptWithPassword(p, plaintext, password).value;
    assert p.btoa(binary) == Ok(encoded);
    assert p.atob(encoded) == Ok(binary);
    BinaryStringRoundTrip(ciphertext);
    assert Base64ToBytes(p, encoded) == Ok(ciphertext);
    assert p.decrypt(AesCbc(iv), key, ciphertext) == Ok(bytes);
    assert DecryptBytes(p, encoded, password) == Ok(bytes);
    assert DecryptSteps(p, encoded, password) == Ok(StripBom(plaintext));
  }

  /** As written, the round trip loses a leading U+FEFF: encrypting
      "\U{FEFF}hi" and decrypting the result gives "hi". That input is not
      blank, so the tool passes it on. */
  lemma BomLostOnRoundTrip(p: Provider, password: string)
    requires Lawful(p)
    requires EncryptWithPassword(p, "\U{FEFF}hi", password).Ok?
    ensures !Blank("\U{FEFF}hi")
    ensures DecryptWithPassword(p, EncryptWithPassword(p, "\U{FEFF}hi", password).value, password) == Ok("hi")
    ensures DecryptWithPassword(p, EncryptWithPassword(p, "\U{FEFF}hi", password).value, password)
            != Ok("\U{FEFF}hi")
  {
    RoundTrip(p, "\U{FEFF}hi", password);
    assert !IsWhitespace("\U{FEFF}hi"[1]);
  }

  // ---------------------------------------------------------------------
  // Decryption with a decoder that keeps the byte order mark
  // ---------------------------------------------------------------------

  /** `new TextDecoder('utf-8', { ignoreBOM: true }).decode(bytes)`: the
      default decoding, with the U+FEFF it dropped put back. */
  function DecodeKeepingBom(p: Provider, bytes: seq<byte>): (text: string)
    ensures !HasBomBytes(bytes) ==> text == p.decodeUtf8(bytes)
    ensures HasBomBytes(bytes) ==> text == [Bom] + p.decodeUtf8(bytes)
  {
    if HasBomBytes(bytes) then [Bom] + p.decodeUtf8(bytes) else p.decodeUtf8(bytes)
  }

  /** `decryptWithPassword` decoding with `ignoreBOM: true`. */
  function DecryptWithPasswordKeepingBom(p: Provider, encryptedData: string, password: string): (r: Result<string>)
    ensures r.Threw? ==> r.error.ErrorObject? && DecryptFailurePrefix <= r.error.message
    ensures r.Ok? <==> DecryptBytes(p, encryptedData, password).Ok?
    ensures r.Ok? ==> r.value == DecodeKeepingBom(p, DecryptBytes(p, encryptedData, password).value)
  {
    Rethrow(DecryptFailurePrefix,
      var decrypted :- DecryptBytes(p, encryptedData, password);
      Ok(DecodeKeepingBom(p, decrypted)))
  }

  /** A decoder that keeps the byte order mark undoes TextEncoder exactly. */
  lemma DecodeKeepingBomInverse(p: Provider, t: string)
    requires Utf8Inverse(p) && Utf8MarksBom(p)
    ensures DecodeKeepingBom(p, p.encodeUtf8(t)) == t
  {
    assert p.decodeUtf8(p.encodeUtf8(t)) == StripBom(t);
    assert HasBomBytes(p.encodeUtf8(t)) <==> StartsWithBom(t);
  }

  /** With that decoder the round trip is exact for every plaintext. */
  lemma RoundTripKeepingBom(p: Provider, plaintext: string, password: string)
    requires Lawful(p) && Utf8MarksBom(p)
    requires EncryptWithPassword(p, plaintext, password).Ok?
    ensures DecryptWithPasswordKeepingBom(p, EncryptWithPassword(p, plaintext, password).value, password)
            == Ok(plaintext)
  {
    var iv := ModuleIv(p);
    var key := GetKeyFromPassword(p, password).value;
    var bytes := p.encodeUtf8(plaintext);
    var ciphertext := p.encrypt(AesCbc(iv), key, bytes).value;
    var encoded := EncryptWithPassword(p, plaintext, password).value;
    assert BufferToBase64(p, ciphertext) == Ok(encoded);
    Base64RoundTrip(p, ciphertext);
    assert p.decrypt(AesCbc(iv), key, ciphertext) == Ok(bytes);
    assert DecryptBytes(p, encoded, password) == Ok(bytes);
    DecodeKeepingBomInverse(p, plaintext);
  }

  /** The seed "FixedIV123456789" is sixteen ASCII characters, so the IV
      is exactly its bytes: none is cut off and none left zero. */
  lemma ModuleIvIsSeedBytes(p: Provider)
    requires Utf8KeepsAscii(p)
    ensures |IvSeed| == IvLength && IsAscii(IvSeed)
    ensures ModuleIv(p) == AsciiBytes(IvSeed)
    ensures forall i :: 0 <= i < IvLength ==> ModuleIv(p)[i] != 0
  {
    assert IsAscii(IvSeed);
    var seed := p.encodeUtf8(IvSeed);
    assert seed == AsciiBytes(IvSeed);
    assert ModuleIv(p) == seed;
  }

  /** The salt is the nineteen bytes of "FixedSaltValue12345". */
  lemma SaltIsSeedBytes(p: Provider)
    requires Utf8KeepsAscii(p)
    ensures IsAscii(SaltSeed)
    ensures KeyDerivation(p).salt == AsciiBytes(SaltSeed) && |KeyDerivation(p).salt| == 19
  {
    assert IsAscii(SaltSeed);
  }
}
