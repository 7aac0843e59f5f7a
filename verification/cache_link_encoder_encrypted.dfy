/** The encrypting encoder decorator (CacheLinkEncoderEncrypted). It wraps a
    base codec: encoding runs the base encoder, encrypts the result under the
    active key and writes `keyId:base64(ciphertext)`; decoding reads the key
    ID back from the value, so values written under an older key still decode
    while that key stays in the key map. The block cipher and base64 are
    parameters, each with the inverse law it must satisfy. */
module CacheLinkEncoderEncrypted {
  import opened Results
  import opened PhpValues
  import opened CacheLinkEncoder

  /** `encrypt(data, key)` and `decrypt(ciphertext, key)`; either may throw. */
  datatype Cipher = Cipher(
    encrypt: (string, string) -> Result<string, string>,
    decrypt: (string, string) -> Result<string, string>)

  /** Decryption under the same key undoes every successful encryption. */
  ghost predicate Inverts(c: Cipher) {
    forall data, key :: c.encrypt(data, key).Ok? ==> c.decrypt(c.encrypt(data, key).value, key) == Ok(data)
  }

  /** `base64_encode` and `base64_decode`. */
  datatype Base64 = Base64(encode: string -> string, decode: string -> string)

  ghost predicate Base64RoundTrips(b: Base64) {
    forall s :: b.decode(b.encode(s)) == s
  }

  /** The decorator's configuration: the wrapped codec, the key ID used for
      writing, the map from key ID to key, and whether a failed decode
      retries with the base codec on the whole value. */
  datatype Encrypted = Encrypted(
    base: Codec,
    cipher: Cipher,
    b64: Base64,
    activeKeyId: string,
    keys: map<string, string>,
    useBaseOnDecodeError: bool)

  /** PHP's `empty()` on a string. */
  predicate PhpEmpty(s: string) {
    s == "" || s == "0"
  }

  /** What the constructor checks: the active key ID has no colon and names a
      non-empty key. */
  predicate Valid(e: Encrypted) {
    ':' !in e.activeKeyId && e.activeKeyId in e.keys && !PhpEmpty(e.keys[e.activeKeyId])
  }

  const InvalidKeyIdMessage: string := "Invalid $encryption_key_id, cannot contain \":\""
  const MissingKeyEntryMessage: string := "Missing $encryption_key_id entry in $keys"
  const MissingKeyIdMessage: string := "CacheLink could not unserialize data, missing key ID."

  /** The constructor: rejects a key ID with a colon first, then a key ID
      without a non-empty key. */
  function New(base: Codec, cipher: Cipher, b64: Base64, keyId: string, keys: map<string, string>, useBase: bool)
    : (r: Result<Encrypted, string>)
    ensures r.Ok? <==> Valid(Encrypted(base, cipher, b64, keyId, keys, useBase))
    ensures r.Ok? ==> r.value == Encrypted(base, cipher, b64, keyId, keys, useBase)
    ensures ':' in keyId ==> r.Err? && r.error == InvalidKeyIdMessage
    ensures ':' !in keyId && r.Err? ==> r.error == MissingKeyEntryMessage
  {
    if ':' in keyId then Err(InvalidKeyIdMessage)
    else if keyId !in keys || PhpEmpty(keys[keyId]) then Err(MissingKeyEntryMessage)
    else Ok(Encrypted(base, cipher, b64, keyId, keys, useBase))
  }

  /** The key ID a stored value names: the text before its first colon, when
      that colon is not the first character. */
  function KeyIdOf(s: string): Option<string> {
    match FirstIndexOf(s, ':')
    case None => None
    case Some(colon) => if colon == 0 then None else Some(s[..colon])
  }

  /** Encodes with the base codec, encrypts under the active key and prefixes
      the active key ID; a failure of either step is reported as a
      serialization error. */
  function Encode(e: Encrypted, data: Value): (r: Result<string, string>)
    requires Valid(e)
    ensures r.Ok? <==> e.base.encode(data).Ok? && e.cipher.encrypt(e.base.encode(data).value, e.keys[e.activeKeyId]).Ok?
    ensures r.Ok? && e.activeKeyId != "" ==> KeyIdOf(r.value) == Some(e.activeKeyId)
  {
    match e.base.encode(data)
    case Err(m) => Err("CacheLink could not serialize data: " + m)
    case Ok(encoded) =>
      match e.cipher.encrypt(encoded, e.keys[e.activeKeyId])
      case Err(m) => Err("CacheLink could not serialize data: " + m)
      case Ok(encrypted) =>
        var s := e.activeKeyId + ":" + e.b64.encode(encrypted);
        FirstColonFollowsKeyId(e.activeKeyId, e.b64.encode(encrypted));
        Ok(s)
  }

  /** The single failure policy of decoding: retry the whole value with the
      base codec when the flag is set, otherwise throw `message`. */
  function DecodeFail(e: Encrypted, s: string, message: string): Result<Value, string> {
    if e.useBaseOnDecodeError then e.base.decode(s) else Err(message)
  }

  /** Splits off the key ID at the first colon (a colon at position 0 counts
      as no key ID), looks the key up, base64-decodes and decrypts the rest,
      and decodes the plaintext with the base codec. A failure of the base
      codec after a successful decryption is not routed through the policy. */
  function Decode(e: Encrypted, s: string): (r: Result<Value, string>)
    ensures KeyIdOf(s).None? ==> r == DecodeFail(e, s, MissingKeyIdMessage)
    ensures KeyIdOf(s).Some? && KeyIdOf(s).value !in e.keys ==>
              r == DecodeFail(e, s, "CacheLink could not unserialize data, unknown key ID (" + KeyIdOf(s).value + ").")
    ensures r.Ok? && !e.useBaseOnDecodeError ==> KeyIdOf(s).Some? && KeyIdOf(s).value in e.keys
  {
    var colon := FirstIndexOf(s, ':');
    if colon.None? || colon.value == 0 then DecodeFail(e, s, MissingKeyIdMessage)
    else
      var keyId := s[..colon.value];
      if keyId !in e.keys then
        DecodeFail(e, s, "CacheLink could not unserialize data, unknown key ID (" + keyId + ").")
      else
        match e.cipher.decrypt(e.b64.decode(s[colon.value + 1..]), e.keys[keyId])
        case Err(m) => DecodeFail(e, s, "CacheLink could not unserialize data: " + m)
        case Ok(encoded) => e.base.decode(encoded)
  }

  /** In `keyId + ":" + rest` with a colon-free key ID the first colon is the
      one right after the key ID. */
  lemma FirstColonFollowsKeyId(keyId: string, rest: string)
    requires ':' !in keyId
    ensures FirstIndexOf(keyId + ":" + rest, ':') == Some(|keyId|)
    ensures (keyId + ":" + rest)[..|keyId|] == keyId
    ensures (keyId + ":" + rest)[|keyId| + 1..] == rest
  {
    var s := keyId + ":" + rest;
    assert s[|keyId|] == ':';
    assert s[..|keyId|] == keyId;
  }

  /** A value without a usable key ID is a decode failure: the base codec's
      reading of the whole value with the fallback flag, an error naming the
      missing key ID without it. */
  lemma MissingKeyIdFails(e: Encrypted, s: string)
    requires KeyIdOf(s).None?
    ensures e.useBaseOnDecodeError ==> Decode(e, s) == e.base.decode(s)
    ensures !e.useBaseOnDecodeError ==> Decode(e, s) == Err(MissingKeyIdMessage)
  {
  }

  /** A key ID missing from the key map is a decode failure under the same
      policy, with a message naming the key ID. */
  lemma UnknownKeyIdFails(e: Encrypted, s: string)
    requires KeyIdOf(s).Some? && KeyIdOf(s).value !in e.keys
    ensures e.useBaseOnDecodeError ==> Decode(e, s) == e.base.decode(s)
    ensures !e.useBaseOnDecodeError ==>
              Decode(e, s) == Err("CacheLink could not unserialize data, unknown key ID (" + KeyIdOf(s).value + ").")
  {
  }

  /** A decryption failure goes through the policy too. */
  lemma DecryptFailureFails(e: Encrypted, s: string, keyId: string, colon: nat, m: string)
    requires FirstIndexOf(s, ':') == Some(colon) && colon > 0
    requires keyId == s[..colon] && keyId in e.keys
    requires e.cipher.decrypt(e.b64.decode(s[colon + 1..]), e.keys[keyId]) == Err(m)
    ensures e.useBaseOnDecodeError ==> Decode(e, s) == e.base.decode(s)
    ensures !e.useBaseOnDecodeError ==> Decode(e, s) == Err("CacheLink could not unserialize data: " + m)
  {
  }

  /** Once decryption has succeeded, the base codec's verdict on the
      plaintext is final: its failure is returned as is, whatever the flag. */
  lemma BaseFailureAfterDecryptIsFinal(e: Encrypted, s: string, keyId: string, colon: nat, plain: string)
    requires FirstIndexOf(s, ':') == Some(colon) && colon > 0
    requires keyId == s[..colon] && keyId in e.keys
    requires e.cipher.decrypt(e.b64.decode(s[colon + 1..]), e.keys[keyId]) == Ok(plain)
    ensures Decode(e, s) == e.base.decode(plain)
  {
  }

  /** Key rotation: a value written by `writer` decodes under `reader`
      whenever the reader still maps the writer's key ID to the same key,
      whatever key the reader now writes with. */
  lemma RotatedKeyStillDecodes(writer: Encrypted, reader: Encrypted, data: Value)
    requires Valid(writer) && writer.activeKeyId != ""
    requires reader.base == writer.base && reader.cipher == writer.cipher && reader.b64 == writer.b64
    requires writer.activeKeyId in reader.keys
    requires reader.keys[writer.activeKeyId] == writer.keys[writer.activeKeyId]
    requires RoundTrips(writer.base) && Inverts(writer.cipher) && Base64RoundTrips(writer.b64)
    requires Encode(writer, data).Ok?
    ensures Decode(reader, Encode(writer, data).value) == Ok(data)
  {
    var id := writer.activeKeyId;
    var encoded := writer.base.encode(data).value;
    var key := writer.keys[id];
    var encrypted := writer.cipher.encrypt(encoded, key).value;
    var text := writer.b64.encode(encrypted);
    FirstColonFollowsKeyId(id, text);
    assert writer.b64.decode(text) == encrypted;
    assert writer.cipher.decrypt(encrypted, key) == Ok(encoded);
  }

  /** Round trip: an encoder decodes what it encoded, provided the base codec,
      the cipher and base64 are lawful and the active key ID is not empty. */
  lemma EncodeThenDecode(e: Encrypted, data: Value)
    requires Valid(e) && e.activeKeyId != ""
    requires RoundTrips(e.base) && Inverts(e.cipher) && Base64RoundTrips(e.b64)
    requires Encode(e, data).Ok?
    ensures Decode(e, Encode(e, data).value) == Ok(data)
  {
    RotatedKeyStillDecodes(e, e, data);
  }

  /** The constructor accepts the empty key ID when the key map has a
      non-empty key for it. */
  lemma EmptyKeyIdIsAccepted(base: Codec, cipher: Cipher, b64: Base64, useBase: bool)
    ensures New(base, cipher, b64, "", map["" := "key"], useBase).Ok?
  {
  }

  /** ...but every value such an encoder writes starts with a colon, which
      decoding reads as a missing key ID: without the fallback flag the
      encoder cannot decode its own output, and with it the ciphertext is
      handed to the base codec undecrypted. */
  lemma EmptyKeyIdOutputIsUndecodable(e: Encrypted, data: Value)
    requires Valid(e) && e.activeKeyId == ""
    requires Encode(e, data).Ok?
    ensures !e.useBaseOnDecodeError ==> Decode(e, Encode(e, data).value) == Err(MissingKeyIdMessage)
    ensures e.useBaseOnDecodeError ==> Decode(e, Encode(e, data).value) == e.base.decode(Encode(e, data).value)
  {
    var s := Encode(e, data).value;
    assert s[0] == ':';
  }

  const EmptyKeyIdMessage: string := "Invalid $encryption_key_id, cannot be empty"

  /** The constructor as evidently intended: it also refuses the empty key ID,
      so every encoder it builds can decode what it encodes. */
  function NewChecked(base: Codec, cipher: Cipher, b64: Base64, keyId: string, keys: map<string, string>, useBase: bool)
    : (r: Result<Encrypted, string>)
    ensures r.Ok? <==> keyId != "" && New(base, cipher, b64, keyId, keys, useBase).Ok?
    ensures r.Ok? ==> Valid(r.value) && r.value.activeKeyId != ""
    ensures r.Ok? ==> r.value == Encrypted(base, cipher, b64, keyId, keys, useBase)
    ensures keyId == "" ==> r.Err? && r.error == EmptyKeyIdMessage
  {
    if keyId == "" then Err(EmptyKeyIdMessage) else New(base, cipher, b64, keyId, keys, useBase)
  }

  /** Every encoder the checked constructor accepts round-trips. */
  lemma CheckedEncoderRoundTrips(base: Codec, cipher: Cipher, b64: Base64, keyId: string,
                                 keys: map<string, string>, useBase: bool, data: Value)
    requires NewChecked(base, cipher, b64, keyId, keys, useBase).Ok?
    requires RoundTrips(base) && Inverts(cipher) && Base64RoundTrips(b64)
    ensures var e := NewChecked(base, cipher, b64, keyId, keys, useBase).value;
            Encode(e, data).Ok? ==> Decode(e, Encode(e, data).value) == Ok(data)
  {
    var e := NewChecked(base, cipher, b64, keyId, keys, useBase).value;
    if Encode(e, data).Ok? {
      EncodeThenDecode(e, data);
    }
  }

  /** The decorator seen through the encoder interface, for an encoder the
      checked constructor accepts; with lawful parts it is itself a lawful
      codec, so it can stand wherever a base codec can. */
  function AsCodec(e: Encrypted): (c: Codec)
    requires Valid(e) && e.activeKeyId != ""
    ensures RoundTrips(e.base) && Inverts(e.cipher) && Base64RoundTrips(e.b64) ==> RoundTrips(c)
  {
    var c := Codec(v => Encode(e, v), s => Decode(e, s));
    assert RoundTrips(e.base) && Inverts(e.cipher) && Base64RoundTrips(e.b64) ==> RoundTrips(c) by {
      if RoundTrips(e.base) && Inverts(e.cipher) && Base64RoundTrips(e.b64) {
        forall v | c.encode(v).Ok?
          ensures c.decode(c.encode(v).value) == Ok(v)
        {
          EncodeThenDecode(e, v);
        }
      }
    }
    c
  }
}
