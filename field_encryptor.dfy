/** Field-level encryption (`FieldEncryptor`): a value is serialised as JSON, encrypted under
    a key derived from the master key and the field's UUID, and stored as an envelope
    `{"value": base64(ciphertext ‖ tag), "metadata": {...}}`.

    The cipher (AES-GCM, NIST SP 800-38D), the key derivation (SHA-256 of FIPS 180-4 and
    PBKDF2 of section 5.2 of RFC 8018), base64 (section 4 of RFC 4648), UTF-8 and JSON are
    not defined here: they are the fields of a `Primitives` value, and what the envelope
    codec relies on about them is the hypothesis `Sound`. Randomness (`os.urandom`) and the
    clock are parameters. */
module FieldEncryption {
  import opened Wrappers
  import opened Dicts
  import opened Values
  import opened Uuids
  import Config

  type byte = x: int | 0 <= x < 256
  type Bytes = seq<byte>

  /** `os.urandom(16)`: the key-derivation salt. */
  type Salt = s: Bytes | |s| == 16 witness seq(16, i => 0)

  /** `os.urandom(12)`: the 96-bit GCM initialisation vector (section 5.2.1.1 of NIST SP 800-38D). */
  type Nonce = s: Bytes | |s| == 12 witness seq(12, i => 0)

  /** The 16-byte GCM authentication tag. */
  type Tag = s: Bytes | |s| == 16 witness seq(16, i => 0)

  /** The length of the GCM tag appended to the ciphertext. */
  const TagLength := 16

  /** The algorithms and the name each is stored under. */
  datatype EncryptionAlgorithm = AesGcm | ChaCha20Poly1305 {
    function Name(): string {
      match this
      case AesGcm => "AES-GCM"
      case ChaCha20Poly1305 => "ChaCha20-Poly1305"
    }
  }

  /** `EncryptionAlgorithm(x)`: the member whose name is `x`; anything else is a `ValueError`. */
  function ParseAlgorithm(x: Value): (r: Result<EncryptionAlgorithm, Failure>)
    ensures r.Ok? <==> x == Str("AES-GCM") || x == Str("ChaCha20-Poly1305")
    ensures r.Ok? ==> x == Str(r.value.Name())
    ensures r.Err? ==> r.error == Raised(ValueError)
  {
    if x == Str("AES-GCM") then Ok(AesGcm)
    else if x == Str("ChaCha20-Poly1305") then Ok(ChaCha20Poly1305)
    else Err(Raised(ValueError))
  }

  lemma ParseAlgorithmName(a: EncryptionAlgorithm)
    ensures ParseAlgorithm(Str(a.Name())) == Ok(a)
  {
  }

  /** What is stored beside the ciphertext. The dictionary it is read back from is not checked
      for types, so every field but the algorithm holds whatever value was stored. */
  datatype EncryptionMetadata = EncryptionMetadata(
    algorithm: EncryptionAlgorithm,
    iv: Value,
    salt: Value,
    createdAt: Value,
    version: Value)

  /** `to_dict` */
  function ToDict(m: EncryptionMetadata): (d: Record)
    ensures Keys(d) == ["algorithm", "iv", "salt", "created_at", "version"]
  {
    [ ("algorithm", Str(m.algorithm.Name())), ("iv", m.iv), ("salt", m.salt),
      ("created_at", m.createdAt), ("version", m.version) ]
  }

  /** `data[key]` on a value taken to be a dictionary. */
  function Index(data: Value, key: string): (r: Result<Value, Failure>)
    ensures r.Ok? <==> data.Obj? && HasKey(data.fields, key)
    ensures r.Ok? ==> Some(r.value) == Get(data.fields, key)
  {
    if !data.Obj? then Err(Raised(TypeError))
    else if !HasKey(data.fields, key) then Err(Raised(KeyError))
    else Ok(Get(data.fields, key).value)
  }

  /** `from_dict`: the fields are read in declaration order, so a bad algorithm is reported
      before a missing `iv`; `version` defaults to "1.0". */
  function FromDict(data: Value): Result<EncryptionMetadata, Failure> {
    var name :- Index(data, "algorithm");
    var algorithm :- ParseAlgorithm(name);
    var iv :- Index(data, "iv");
    var salt :- Index(data, "salt");
    var createdAt :- Index(data, "created_at");
    Ok(EncryptionMetadata(algorithm, iv, salt, createdAt, Get(data.fields, "version").GetOr(Str("1.0"))))
  }

  /** `from_dict(to_dict(m))` gives back `m`. */
  lemma FromDictToDict(m: EncryptionMetadata)
    ensures FromDict(Obj(ToDict(m))) == Ok(m)
  {
    var d := ToDict(m);
    ParseAlgorithmName(m.algorithm);
    ToDictGet(m);
    assert Index(Obj(d), "algorithm") == Ok(Str(m.algorithm.Name()));
    assert Index(Obj(d), "iv") == Ok(m.iv);
    assert Index(Obj(d), "salt") == Ok(m.salt);
    assert Index(Obj(d), "created_at") == Ok(m.createdAt);
  }

  /** Each field of the metadata is found under its key. */
  lemma ToDictGet(m: EncryptionMetadata)
    ensures var d := ToDict(m);
      Get(d, "algorithm") == Some(Str(m.algorithm.Name())) && Get(d, "iv") == Some(m.iv) &&
      Get(d, "salt") == Some(m.salt) && Get(d, "created_at") == Some(m.createdAt) &&
      Get(d, "version") == Some(m.version)
  {
    var d := ToDict(m);
    var d1, d2, d3, d4 := d[1..], d[1..][1..], d[1..][1..][1..], d[1..][1..][1..][1..];
    assert d[0].0 == "algorithm" && d1[0].0 == "iv" && d2[0].0 == "salt";
    assert d3[0].0 == "created_at" && d4[0].0 == "version";
    assert Get(d, "iv") == Get(d1, "iv");
    assert Get(d, "salt") == Get(d1, "salt") == Get(d2, "salt");
    assert Get(d, "created_at") == Get(d1, "created_at") == Get(d2, "created_at") == Get(d3, "created_at");
    assert Get(d, "version") == Get(d1, "version") == Get(d2, "version") == Get(d3, "version") == Get(d4, "version");
  }

  /** A dictionary without "version" reads as version "1.0"; an algorithm name outside the
      enumeration is a `ValueError`. */
  lemma FromDictDefaults(data: Record)
    requires HasKey(data, "algorithm") && HasKey(data, "iv") && HasKey(data, "salt") && HasKey(data, "created_at")
    ensures var r := FromDict(Obj(data));
      var name := Get(data, "algorithm").value;
      (r.Err? <==> name != Str("AES-GCM") && name != Str("ChaCha20-Poly1305")) &&
      (r.Err? ==> r.error == Raised(ValueError)) &&
      (r.Ok? && !HasKey(data, "version") ==> r.value.version == Str("1.0"))
  {
  }

  /** The primitives the codec is written against. */
  datatype Primitives = Primitives(
    utf8Encode: string -> Bytes,
    utf8Decode: Bytes -> Option<string>,
    jsonDumps: Value -> string,
    jsonLoads: string -> Option<Value>,
    b64Encode: Bytes -> string,
    b64Decode: string -> Option<Bytes>,
    sha256: Bytes -> Bytes,
    pbkdf2: (Bytes, Bytes, int) -> Option<Bytes>,
    gcmEncrypt: (Bytes, Nonce, Bytes) -> (Bytes, Tag),
    gcmDecrypt: (Bytes, Bytes, Bytes, Bytes) -> Result<Bytes, Failure>)

  /** What the codec relies on: each decoder undoes its encoder, and GCM decryption with the
      tag that encryption produced gives back the plaintext. JSON only round-trips values it
      can represent: dictionaries without repeated keys. */
  ghost predicate Sound(p: Primitives) {
    (forall s :: p.utf8Decode(p.utf8Encode(s)) == Some(s)) &&
    (forall v | JsonValue(v) :: p.jsonLoads(p.jsonDumps(v)) == Some(v)) &&
    (forall b :: p.b64Decode(p.b64Encode(b)) == Some(b)) &&
    (forall k, iv: Nonce, pt :: p.gcmDecrypt(k, iv, p.gcmEncrypt(k, iv, pt).1, p.gcmEncrypt(k, iv, pt).0) == Ok(pt))
  }

  /** An encryptor: the master key and the two settings read from the configuration. The master
      key is whatever value the precedence rule produced, not necessarily a string. */
  datatype FieldEncryptor = FieldEncryptor(masterKey: Value, defaultAlgorithm: Value, keyIterations: Value)

  const DevKey := "dev-only-encryption-key-do-not-use-in-production"

  /** `_get_master_key`: INDALEKO_ENCRYPTION_KEY when set and non-empty, then a true
      `encryption.key` setting, then the development key in development mode, else "". */
  function LookupMasterKey(cfg: Record, env: map<string, string>): Value {
    if "INDALEKO_ENCRYPTION_KEY" in env && env["INDALEKO_ENCRYPTION_KEY"] != "" then Str(env["INDALEKO_ENCRYPTION_KEY"])
    else if Truthy(Config.Resolve(Obj(cfg), ["encryption", "key"]).GetOr(Null)) then Config.Resolve(Obj(cfg), ["encryption", "key"]).value
    else if Config.DevMode(cfg) then Str(DevKey)
    else Str("")
  }

  /** `FieldEncryptor(master_key)` over an initialised configuration `cfg`: an explicit
      non-empty key comes first; a false key ends the process. */
  function NewFieldEncryptor(masterKey: Option<string>, cfg: Record, env: map<string, string>): Result<FieldEncryptor, Failure> {
    var key := if masterKey.Some? && masterKey.value != "" then Str(masterKey.value) else LookupMasterKey(cfg, env);
    if !Truthy(key) then Err(Exit(1))
    else Ok(FieldEncryptor(key,
      Config.Resolve(Obj(cfg), ["encryption", "algorithm"]).GetOr(Str("AES-GCM")),
      Config.Resolve(Obj(cfg), ["encryption", "key_iterations"]).GetOr(Int(100000))))
  }

  /** The first true candidate, or `otherwise`. */
  function FirstTruthy(candidates: seq<Value>, otherwise: Value): (r: Value)
    ensures r == otherwise || r in candidates
  {
    if candidates == [] then otherwise
    else if Truthy(candidates[0]) then candidates[0]
    else FirstTruthy(candidates[1..], otherwise)
  }

  /** The master key in order of precedence: the argument, the environment, the configuration,
      the development key (in development mode only). */
  function MasterKeyCandidates(masterKey: Option<string>, cfg: Record, env: map<string, string>): seq<Value> {
    [ Str(masterKey.GetOr("")),
      Str(if "INDALEKO_ENCRYPTION_KEY" in env then env["INDALEKO_ENCRYPTION_KEY"] else ""),
      Config.Resolve(Obj(cfg), ["encryption", "key"]).GetOr(Null) ]
    + (if Config.DevMode(cfg) then [Str(DevKey)] else [])
  }

  /** The encryptor's master key is the first true candidate in precedence order, and
      construction fails exactly when there is none (outside development mode with no key
      supplied anywhere). */
  lemma MasterKeyPrecedence(masterKey: Option<string>, cfg: Record, env: map<string, string>)
    ensures var r := NewFieldEncryptor(masterKey, cfg, env);
      var first := FirstTruthy(MasterKeyCandidates(masterKey, cfg, env), Str(""));
      (r.Err? <==> first == Str("")) &&
      (r.Err? ==> r.error == Exit(1)) &&
      (r.Ok? ==> r.value.masterKey == first)
  {
    var cs := MasterKeyCandidates(masterKey, cfg, env);
    var o := Str("");
    var tail := if Config.DevMode(cfg) then [Str(DevKey)] else [];
    assert FirstTruthy(tail, o) == if Config.DevMode(cfg) then Str(DevKey) else o by {
      if Config.DevMode(cfg) { assert tail[1..] == []; }
    }
    assert cs[2..] == [cs[2]] + tail;
    assert FirstTruthy(cs[2..], o) == if Truthy(cs[2]) then cs[2] else FirstTruthy(tail, o);
    assert cs[1..][1..] == cs[2..];
    assert FirstTruthy(cs[1..], o) == if Truthy(cs[1]) then cs[1] else FirstTruthy(cs[2..], o);
    assert FirstTruthy(cs, o) == if Truthy(cs[0]) then cs[0] else FirstTruthy(cs[1..], o);
  }

  /** `derive_key(field_uuid, salt)`: SHA-256 over the master key's bytes followed by the bytes
      of `str(field_uuid)`, stretched by PBKDF2 with the salt; `random` is the salt
      `os.urandom(16)` would give when none is passed. A master key that is not a string has
      no `encode` (`AttributeError`); an iteration count that is neither an integer nor a
      boolean (Python's `bool` is an `int`: `True` is 1) is a `TypeError`; parameters PBKDF2
      rejects are a `ValueError`. */
  function DeriveKey(enc: FieldEncryptor, p: Primitives, fieldUuid: Uuid, salt: Option<Bytes>, random: Salt)
    : Result<(Bytes, Bytes), Failure>
  {
    var s := salt.GetOr(random);
    if !enc.masterKey.Str? then Err(Raised(AttributeError))
    else if !enc.keyIterations.Int? && !enc.keyIterations.Bool? then Err(Raised(TypeError))
    else
      var iterations := if enc.keyIterations.Bool? then (if enc.keyIterations.b then 1 else 0) else enc.keyIterations.i;
      var fieldKey := p.sha256(p.utf8Encode(enc.masterKey.s) + p.utf8Encode(ToString(fieldUuid)));
      match p.pbkdf2(fieldKey, s, iterations)
      case None => Err(Raised(ValueError))
      case Some(key) => Ok((key, s))
  }

  /** The salt `derive_key` returns is the one it was given, or the fresh one; and deriving
      with no salt is deriving with that fresh salt, so a key is recovered from the salt
      alone. */
  lemma DeriveKeySalt(enc: FieldEncryptor, p: Primitives, fieldUuid: Uuid, salt: Option<Bytes>, random: Salt)
    ensures var r := DeriveKey(enc, p, fieldUuid, salt, random);
      r.Ok? ==> r.value.1 == salt.GetOr(random) &&
                DeriveKey(enc, p, fieldUuid, Some(r.value.1), random) == r
  {
  }

  /** With an idealised hash and key-derivation function (no collisions), two fields with
      different UUIDs never share a key for the same salt: the UUID enters the derivation
      through its canonical string, which no two UUIDs share. */
  lemma DistinctFieldsDistinctKeys(enc: FieldEncryptor, p: Primitives, u: Uuid, v: Uuid, salt: Bytes, random: Salt)
    requires Sound(p)
    requires forall a, b :: p.sha256(a) == p.sha256(b) ==> a == b
    requires forall a, b, n :: p.pbkdf2(a, salt, n).Some? && p.pbkdf2(a, salt, n) == p.pbkdf2(b, salt, n) ==> a == b
    requires u != v
    requires DeriveKey(enc, p, u, Some(salt), random).Ok? && DeriveKey(enc, p, v, Some(salt), random).Ok?
    ensures DeriveKey(enc, p, u, Some(salt), random).value.0 != DeriveKey(enc, p, v, Some(salt), random).value.0
  {
    var m := p.utf8Encode(enc.masterKey.s);
    var su, sv := ToString(u), ToString(v);
    if DeriveKey(enc, p, u, Some(salt), random).value.0 == DeriveKey(enc, p, v, Some(salt), random).value.0 {
      assert m + p.utf8Encode(su) == m + p.utf8Encode(sv);
      assert p.utf8Encode(su) == (m + p.utf8Encode(su))[|m|..];
      assert p.utf8Encode(su) == p.utf8Encode(sv);
      assert p.utf8Decode(p.utf8Encode(su)) == Some(su);
      assert su == sv;
      ToStringInjective(u, v);
      assert false;
    }
  }

  /** The stored bytes are the ciphertext followed by the tag. */
  function Seal(ciphertext: Bytes, tag: Tag): Bytes {
    ciphertext + tag
  }

  /** `(data[:-16], data[-16:])`: with fewer than 16 bytes the ciphertext is empty and the
      "tag" is everything. */
  function SplitTag(data: Bytes): (r: (Bytes, Bytes))
    ensures r.0 + r.1 == data
    ensures |data| >= TagLength ==> |r.1| == TagLength
    ensures |data| < TagLength ==> r.0 == []
  {
    if |data| >= TagLength then (data[..|data| - TagLength], data[|data| - TagLength..]) else ([], data)
  }

  /** Splitting the sealed bytes gives back the ciphertext and the tag. */
  lemma SplitTagSeal(ciphertext: Bytes, tag: Tag)
    ensures SplitTag(Seal(ciphertext, tag)) == (ciphertext, tag)
  {
    var d := Seal(ciphertext, tag);
    assert d[..|d| - TagLength] == ciphertext;
    assert d[|d| - TagLength..] == tag;
  }

  /** The stored form: the base64 text of the sealed bytes beside the metadata dictionary. */
  function Envelope(sealedText: string, metadata: EncryptionMetadata): Value {
    Obj([("value", Str(sealedText)), ("metadata", Obj(ToDict(metadata)))])
  }

  /** `encrypt_field(value, field_uuid, algorithm)`. `salt`, `iv` and `now` stand for
      `os.urandom(16)`, `os.urandom(12)` and the ISO time stamp. Without an explicit algorithm
      the configured one is used, and an unknown name is a `ValueError`; any algorithm but
      AES-GCM is a `ValueError` after the key has been derived. */
  function EncryptField(enc: FieldEncryptor, p: Primitives, value: Value, fieldUuid: Uuid,
                        algorithm: Option<EncryptionAlgorithm>, salt: Salt, iv: Nonce, now: string)
    : Result<Value, Failure>
  {
    var alg :- if algorithm.Some? then Ok(algorithm.value) else ParseAlgorithm(enc.defaultAlgorithm);
    var plaintext := p.utf8Encode(p.jsonDumps(value));
    var derived :- DeriveKey(enc, p, fieldUuid, Some(salt), salt);
    if alg != AesGcm then Err(Raised(ValueError))
    else
      var sealed := p.gcmEncrypt(derived.0, iv, plaintext);
      var metadata := EncryptionMetadata(alg, Str(p.b64Encode(iv)), Str(p.b64Encode(salt)), Str(now), Str("1.0"));
      Ok(Envelope(p.b64Encode(Seal(sealed.0, sealed.1)), metadata))
  }

  /** The envelope has exactly the keys "value" and "metadata"; the metadata names the
      algorithm in clear and carries the base64 forms of the 12-byte IV and the 16-byte salt,
      the time stamp and version "1.0". Every algorithm but AES-GCM is refused. */
  lemma EncryptFieldShape(enc: FieldEncryptor, p: Primitives, value: Value, fieldUuid: Uuid,
                          algorithm: Option<EncryptionAlgorithm>, salt: Salt, iv: Nonce, now: string)
    ensures var r := EncryptField(enc, p, value, fieldUuid, algorithm, salt, iv, now);
      (algorithm == Some(ChaCha20Poly1305) ==>
        r.Err? && (DeriveKey(enc, p, fieldUuid, Some(salt), salt).Ok? ==> r.error == Raised(ValueError))) &&
      (r.Ok? ==>
        r.value.Obj? && Keys(r.value.fields) == ["value", "metadata"] &&
        Get(r.value.fields, "metadata") ==
          Some(Obj([("algorithm", Str("AES-GCM")), ("iv", Str(p.b64Encode(iv))), ("salt", Str(p.b64Encode(salt))),
                    ("created_at", Str(now)), ("version", Str("1.0"))])))
  {
  }

  /** `key in data` for the value `decrypt_field` is given: a key of a dictionary, a substring
      of a string, an element of a list; any other value cannot be searched (`TypeError`). */
  function Holds(data: Value, key: string): Result<bool, Failure> {
    match data
    case Obj(fields) => Ok(HasKey(fields, key))
    case Str(s) => Ok(Strings.Contains(s, key))
    case List(items) => Ok(Str(key) in items)
    case _ => Err(Raised(TypeError))
  }

  /** `base64.b64decode(x)` of a stored value: only a string can be decoded. */
  function B64DecodeValue(p: Primitives, x: Value): Result<Bytes, Failure> {
    if !x.Str? then Err(Raised(TypeError))
    else match p.b64Decode(x.s)
      case None => Err(Raised(ValueError))
      case Some(b) => Ok(b)
  }

  /** What `decrypt_field` reads from its input before deriving the key. */
  datatype Opened = Opened(metadata: EncryptionMetadata, sealed: Bytes, iv: Bytes, salt: Bytes)

  /** The reading steps of `decrypt_field`: an input lacking "value" or "metadata" is a
      `ValueError`; then the metadata, the sealed bytes, the IV and the salt are decoded. */
  function ReadEnvelope(p: Primitives, data: Value): Result<Opened, Failure> {
    var hasValue :- Holds(data, "value");
    if !hasValue then Err(Raised(ValueError))
    else
      var hasMetadata :- Holds(data, "metadata");
      if !hasMetadata then Err(Raised(ValueError))
      else
        var stored :- Index(data, "metadata");
        var metadata :- FromDict(stored);
        var sealedText :- Index(data, "value");
        var sealed :- B64DecodeValue(p, sealedText);
        var iv :- B64DecodeValue(p, metadata.iv);
        var salt :- B64DecodeValue(p, metadata.salt);
        Ok(Opened(metadata, sealed, iv, salt))
  }

  /** AES-GCM decryption of the sealed bytes, then UTF-8 and JSON decoding. */
  function Unseal(p: Primitives, key: Bytes, iv: Bytes, sealed: Bytes): Result<Value, Failure> {
    var (ciphertext, tag) := SplitTag(sealed);
    var plaintext :- p.gcmDecrypt(key, iv, tag, ciphertext);
    match p.utf8Decode(plaintext)
    case None => Err(Raised(ValueError))
    case Some(text) =>
      match p.jsonLoads(text)
      case None => Err(Raised(ValueError))
      case Some(v) => Ok(v)
  }

  /** `decrypt_field(encrypted_data, field_uuid)`: the key is derived again from the salt stored
      in the metadata, and AES-GCM is the only algorithm decrypted. */
  function DecryptField(enc: FieldEncryptor, p: Primitives, data: Value, fieldUuid: Uuid, random: Salt)
    : Result<Value, Failure>
  {
    var read :- ReadEnvelope(p, data);
    var derived :- DeriveKey(enc, p, fieldUuid, Some(read.salt), random);
    if read.metadata.algorithm != AesGcm then Err(Raised(ValueError))
    else Unseal(p, derived.0, read.iv, read.sealed)
  }

  /** A dictionary without "value" or "metadata" is refused with `ValueError`. */
  lemma DecryptFieldNeedsBothKeys(enc: FieldEncryptor, p: Primitives, data: Record, fieldUuid: Uuid, random: Salt)
    requires !HasKey(data, "value") || !HasKey(data, "metadata")
    ensures DecryptField(enc, p, Obj(data), fieldUuid, random) == Err(Raised(ValueError))
  {
  }

  /** An envelope naming any algorithm but AES-GCM is refused with `ValueError` once its
      key has been derived. */
  lemma DecryptFieldRefusesOtherAlgorithms(enc: FieldEncryptor, p: Primitives, data: Value, fieldUuid: Uuid, random: Salt)
    requires ReadEnvelope(p, data).Ok? && ReadEnvelope(p, data).value.metadata.algorithm == ChaCha20Poly1305
    ensures var r := DecryptField(enc, p, data, fieldUuid, random);
      r.Err? && (DeriveKey(enc, p, fieldUuid, Some(ReadEnvelope(p, data).value.salt), random).Ok? ==> r.error == Raised(ValueError))
  {
  }

  /** The envelope `encrypt_field` stores reads back as its metadata and the base64-decoded
      sealed bytes, IV and salt. */
  lemma ReadEnvelopeOfEnvelope(p: Primitives, sealed: Bytes, metadata: EncryptionMetadata, iv: Bytes, salt: Bytes)
    requires Sound(p)
    requires metadata.iv == Str(p.b64Encode(iv)) && metadata.salt == Str(p.b64Encode(salt))
    ensures ReadEnvelope(p, Envelope(p.b64Encode(sealed), metadata)) == Ok(Opened(metadata, sealed, iv, salt))
  {
    var data := Envelope(p.b64Encode(sealed), metadata);
    assert data.fields[0].0 == "value" && data.fields[1..][0].0 == "metadata";
    assert Get(data.fields, "metadata") == Get(data.fields[1..], "metadata") == Some(Obj(ToDict(metadata)));
    assert Holds(data, "value") == Ok(true);
    assert Holds(data, "metadata") == Ok(true);
    assert Index(data, "metadata") == Ok(Obj(ToDict(metadata)));
    FromDictToDict(metadata);
    assert Index(data, "value") == Ok(Str(p.b64Encode(sealed)));
    assert B64DecodeValue(p, Str(p.b64Encode(sealed))) == Ok(sealed);
    assert B64DecodeValue(p, metadata.iv) == Ok(iv);
    assert B64DecodeValue(p, metadata.salt) == Ok(salt);
  }

  /** Unsealing what was sealed under the same key and IV gives back the value. */
  lemma UnsealSeal(p: Primitives, key: Bytes, iv: Nonce, value: Value)
    requires Sound(p) && JsonValue(value)
    ensures var sealed := p.gcmEncrypt(key, iv, p.utf8Encode(p.jsonDumps(value)));
      Unseal(p, key, iv, Seal(sealed.0, sealed.1)) == Ok(value)
  {
    var plaintext := p.utf8Encode(p.jsonDumps(value));
    var sealed := p.gcmEncrypt(key, iv, plaintext);
    SplitTagSeal(sealed.0, sealed.1);
    assert p.gcmDecrypt(key, iv, sealed.1, sealed.0) == Ok(plaintext);
    assert p.utf8Decode(plaintext) == Some(p.jsonDumps(value));
    assert p.jsonLoads(p.jsonDumps(value)) == Some(value);
  }

  /** `decrypt_field(encrypt_field(v, f), f) == v`. */
  lemma DecryptEncryptField(enc: FieldEncryptor, p: Primitives, value: Value, fieldUuid: Uuid,
                            algorithm: Option<EncryptionAlgorithm>, salt: Salt, iv: Nonce, now: string, random: Salt)
    requires Sound(p) && JsonValue(value)
    requires EncryptField(enc, p, value, fieldUuid, algorithm, salt, iv, now).Ok?
    ensures DecryptField(enc, p, EncryptField(enc, p, value, fieldUuid, algorithm, salt, iv, now).value, fieldUuid, random) == Ok(value)
  {
    var alg := if algorithm.Some? then algorithm.value else ParseAlgorithm(enc.defaultAlgorithm).value;
    var derived := DeriveKey(enc, p, fieldUuid, Some(salt), salt).value;
    var sealed := p.gcmEncrypt(derived.0, iv, p.utf8Encode(p.jsonDumps(value)));
    var metadata := EncryptionMetadata(alg, Str(p.b64Encode(iv)), Str(p.b64Encode(salt)), Str(now), Str("1.0"));
    var envelope := EncryptField(enc, p, value, fieldUuid, algorithm, salt, iv, now).value;
    assert envelope == Envelope(p.b64Encode(Seal(sealed.0, sealed.1)), metadata);
    ReadEnvelopeOfEnvelope(p, Seal(sealed.0, sealed.1), metadata, iv, salt);
    assert DeriveKey(enc, p, fieldUuid, Some(salt), random) == DeriveKey(enc, p, fieldUuid, Some(salt), salt);
    UnsealSeal(p, derived.0, iv, value);
  }

  /** `encrypt_value`: the envelope of `encrypt_field` with the default algorithm, as JSON text. */
  function EncryptValue(enc: FieldEncryptor, p: Primitives, value: Value, fieldUuid: Uuid, salt: Salt, iv: Nonce, now: string)
    : Result<string, Failure>
  {
    var envelope :- EncryptField(enc, p, value, fieldUuid, None, salt, iv, now);
    Ok(p.jsonDumps(envelope))
  }

  /** `decrypt_value`: JSON text that does not parse is a `ValueError`. */
  function DecryptValue(enc: FieldEncryptor, p: Primitives, text: string, fieldUuid: Uuid, random: Salt)
    : Result<Value, Failure>
  {
    match p.jsonLoads(text)
    case None => Err(Raised(ValueError))
    case Some(data) => DecryptField(enc, p, data, fieldUuid, random)
  }

  /** An envelope whose metadata fields are strings is a value JSON carries faithfully. */
  lemma EnvelopeIsJson(sealedText: string, metadata: EncryptionMetadata)
    requires metadata.iv.Str? && metadata.salt.Str? && metadata.createdAt.Str? && metadata.version.Str?
    ensures JsonValue(Envelope(sealedText, metadata))
  {
    var d := ToDict(metadata);
    assert forall i | 0 <= i < |d| :: JsonValue(d[i].1);
    assert DistinctKeys(d) by {
      assert Keys(d) == ["algorithm", "iv", "salt", "created_at", "version"];
      forall i, j | 0 <= i < j < |d| ensures d[i].0 != d[j].0 {
        assert d[i].0 == Keys(d)[i] && d[j].0 == Keys(d)[j];
      }
    }
    assert JsonValue(Obj(d));
    var e := Envelope(sealedText, metadata).fields;
    assert e[1].1 == Obj(d);
    assert forall i | 0 <= i < |e| :: JsonValue(e[i].1);
  }

  /** `decrypt_value(encrypt_value(v, f), f) == v`. */
  lemma DecryptEncryptValue(enc: FieldEncryptor, p: Primitives, value: Value, fieldUuid: Uuid,
                            salt: Salt, iv: Nonce, now: string, random: Salt)
    requires Sound(p) && JsonValue(value)
    requires EncryptValue(enc, p, value, fieldUuid, salt, iv, now).Ok?
    ensures DecryptValue(enc, p, EncryptValue(enc, p, value, fieldUuid, salt, iv, now).value, fieldUuid, random) == Ok(value)
  {
    var envelope := EncryptField(enc, p, value, fieldUuid, None, salt, iv, now).value;
    var alg := ParseAlgorithm(enc.defaultAlgorithm).value;
    var derived := DeriveKey(enc, p, fieldUuid, Some(salt), salt).value;
    var sealed := p.gcmEncrypt(derived.0, iv, p.utf8Encode(p.jsonDumps(value)));
    var metadata := EncryptionMetadata(alg, Str(p.b64Encode(iv)), Str(p.b64Encode(salt)), Str(now), Str("1.0"));
    assert envelope == Envelope(p.b64Encode(Seal(sealed.0, sealed.1)), metadata);
    EnvelopeIsJson(p.b64Encode(Seal(sealed.0, sealed.1)), metadata);
    DecryptEncryptField(enc, p, value, fieldUuid, None, salt, iv, now, random);
  }
}
