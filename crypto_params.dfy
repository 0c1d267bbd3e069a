/** The vault's key-derivation parameters (`internal/crypto/crypto.go`): the
  * recommended Argon2id cost and the rehash decision, the defaults filled in when
  * the parameters are written and when they are read back, the purpose-string
  * guard of key derivation, and the order of the steps of a rehash. Argon2id,
  * HKDF, JSON and SHA-256 are parameters of the model. */
module CryptoParams {
  import opened Wrappers
  import opened Text
  import opened Bytes

  const RecommendedTime: u32 := 6
  const RecommendedMemory: u32 := 256 * 1024
  const RecommendedThreads: u8 := 4

  const MasterKeyPurpose := "passbook:master:v1"
  const VaultKeyPurpose := "passbook:vault:v1"

  /** `VaultParams`, the content of `.vault_params`. */
  datatype VaultParams = VaultParams(
    version: int,
    salt: seq<u8>,
    time: u32,
    memoryKB: u32,
    threads: u8,
    kdf: string,
    cipher: string,
    masterKeyPurpose: string,
    vaultKeyPurpose: string)

  /** `NeedsRehash`: some cost parameter is below the recommended one. */
  predicate NeedsRehash(p: VaultParams)
  {
    p.time < RecommendedTime || p.memoryKB < RecommendedMemory || p.threads < RecommendedThreads
  }

  /** Parameters at or above the recommended cost never need a rehash, and
    * lowering any one of them below it always does. */
  lemma NeedsRehashIff(p: VaultParams)
    ensures !NeedsRehash(p) <==>
      p.time >= 6 && p.memoryKB >= 262144 && p.threads >= 4
  {
  }

  /** Raising a cost parameter never turns "no rehash needed" into "rehash needed". */
  lemma NeedsRehashMonotone(p: VaultParams, q: VaultParams)
    requires p.time <= q.time && p.memoryKB <= q.memoryKB && p.threads <= q.threads
    ensures NeedsRehash(q) ==> NeedsRehash(p)
  {
  }

  // ---------------------------------------------------------------------------
  // Defaults
  // ---------------------------------------------------------------------------

  /** The defaults `marshalVaultParams` fills in before encoding. */
  function MarshalDefaults(p: VaultParams): (q: VaultParams)
    ensures q.version != 0 && q.kdf != "" && q.cipher != ""
    ensures q.salt == p.salt && q.time == p.time && q.memoryKB == p.memoryKB && q.threads == p.threads
    ensures q.masterKeyPurpose == p.masterKeyPurpose && q.vaultKeyPurpose == p.vaultKeyPurpose
    ensures p.version != 0 ==> q.version == p.version
    ensures p.kdf != "" ==> q.kdf == p.kdf
    ensures p.cipher != "" ==> q.cipher == p.cipher
  {
    p.(version := if p.version == 0 then 1 else p.version,
       kdf := if p.kdf == "" then "argon2id" else p.kdf,
       cipher := if p.cipher == "" then "aes-256-gcm" else p.cipher)
  }

  /** `marshalVaultParams`, with the JSON encoder as a parameter. */
  function MarshalVaultParams(p: VaultParams, encode: VaultParams -> seq<u8>): seq<u8>
  {
    encode(MarshalDefaults(p))
  }

  /** `HashVaultParams`, with the encoder and `HashVaultParamsBytes` as parameters. */
  function HashVaultParams(p: VaultParams, encode: VaultParams -> seq<u8>, hash: seq<u8> -> string): string
  {
    hash(MarshalVaultParams(p, encode))
  }

  /** Filling the defaults twice is filling them once. */
  lemma MarshalDefaultsIdempotent(p: VaultParams)
    ensures MarshalDefaults(MarshalDefaults(p)) == MarshalDefaults(p)
  {
  }

  /** The hash of parameters is the hash of their defaulted form, so parameters
    * that differ only by missing defaults hash alike. */
  lemma HashOfDefaulted(p: VaultParams, encode: VaultParams -> seq<u8>, hash: seq<u8> -> string)
    ensures HashVaultParams(p, encode, hash) == HashVaultParams(MarshalDefaults(p), encode, hash)
  {
    MarshalDefaultsIdempotent(p);
  }

  /** The back-filling `loadVaultParamsFrom` applies: each zero or empty field gets
    * its default, every other field is kept. */
  function BackFill(p: VaultParams): (q: VaultParams)
    ensures q.version == (if p.version == 0 then 1 else p.version)
    ensures q.time == (if p.time == 0 then RecommendedTime else p.time)
    ensures q.memoryKB == (if p.memoryKB == 0 then RecommendedMemory else p.memoryKB)
    ensures q.threads == (if p.threads == 0 then RecommendedThreads else p.threads)
    ensures q.kdf == (if p.kdf == "" then "argon2id" else p.kdf)
    ensures q.cipher == (if p.cipher == "" then "aes-256-gcm" else p.cipher)
    ensures q.salt == p.salt
    ensures q.masterKeyPurpose == p.masterKeyPurpose && q.vaultKeyPurpose == p.vaultKeyPurpose
  {
    MarshalDefaults(p).(
      time := if p.time == 0 then RecommendedTime else p.time,
      memoryKB := if p.memoryKB == 0 then RecommendedMemory else p.memoryKB,
      threads := if p.threads == 0 then RecommendedThreads else p.threads)
  }

  /** Back-filled parameters have no zero field left, back-filling them again
    * changes nothing, and they already carry the marshalling defaults. */
  lemma BackFillFixed(p: VaultParams)
    ensures var q := BackFill(p);
      q.version != 0 && q.time != 0 && q.memoryKB != 0 && q.threads != 0 && q.kdf != "" && q.cipher != "" &&
      BackFill(q) == q && MarshalDefaults(q) == q
  {
  }

  /** Parameters whose cost was entirely missing are back-filled to the
    * recommended cost and need no rehash. */
  lemma BackFillOfZeroCost(p: VaultParams)
    requires p.time == 0 && p.memoryKB == 0 && p.threads == 0
    ensures !NeedsRehash(BackFill(p))
  {
  }

  /** What reading `.vault_params` found: no file, a file that could not be read,
    * or the result of decoding its JSON. */
  datatype ParamsFile = NotExist | Unreadable(msg: string) | Decoded(parsed: Result<VaultParams>)

  /** `loadVaultParamsFrom`: the read and decode errors are passed on, a salt that
    * is not 32 bytes long is rejected, and the rest is back-filled. */
  method LoadVaultParamsFrom(file: ParamsFile) returns (r: Result<VaultParams>)
    ensures file.NotExist? ==> r == Err("file does not exist")
    ensures file.Unreadable? ==> r == Err(file.msg)
    ensures file.Decoded? && file.parsed.Err? ==> r == Err("parsing vault params: " + file.parsed.msg)
    ensures file.Decoded? && file.parsed.Ok? && |file.parsed.value.salt| != 32 ==>
      r == Err("invalid vault params: expected 32-byte salt, got " + Itoa(|file.parsed.value.salt|))
    ensures file.Decoded? && file.parsed.Ok? && |file.parsed.value.salt| == 32 ==>
      r == Ok(BackFill(file.parsed.value))
  {
    match file {
      case NotExist => return Err("file does not exist");
      case Unreadable(msg) => return Err(msg);
      case Decoded(parsed) =>
        if parsed.Err? {
          return Err("parsing vault params: " + parsed.msg);
        }
    }
    var p := file.parsed.value;
    if |p.salt| != 32 {
      return Err("invalid vault params: expected 32-byte salt, got " + Itoa(|p.salt|));
    }
    if p.version == 0 {
      p := p.(version := 1);
    }
    if p.time == 0 {
      p := p.(time := RecommendedTime);
    }
    if p.memoryKB == 0 {
      p := p.(memoryKB := RecommendedMemory);
    }
    if p.threads == 0 {
      p := p.(threads := RecommendedThreads);
    }
    if p.kdf == "" {
      p := p.(kdf := "argon2id");
    }
    if p.cipher == "" {
      p := p.(cipher := "aes-256-gcm");
    }
    return Ok(p);
  }

  /** What `LoadVaultParams` returns: `(nil, nil)` for a missing file, the
    * parameters, or an error. */
  datatype Loaded = NoParams | Params(p: VaultParams) | LoadError(msg: string)

  /** `LoadVaultParams`. */
  method LoadVaultParams(file: ParamsFile) returns (r: Loaded)
    ensures file.NotExist? <==> r.NoParams?
    ensures r.Params? ==> file.Decoded? && file.parsed.Ok? && |r.p.salt| == 32 && r.p == BackFill(file.parsed.value)
    ensures file.Decoded? && file.parsed.Ok? && |file.parsed.value.salt| == 32 ==> r.Params?
  {
    if file.NotExist? {
      return NoParams;
    }
    var loaded := LoadVaultParamsFrom(file);
    if loaded.Err? {
      return LoadError(loaded.msg);
    }
    return Params(loaded.value);
  }

  /** The KDF parameters stored in `.secret`. */
  class KDFParams {
    var salt: seq<u8>
    var time: u32
    var memoryKB: u32
    var threads: u8

    constructor (salt: seq<u8>, time: u32, memoryKB: u32, threads: u8)
      ensures this.salt == salt && this.time == time && this.memoryKB == memoryKB && this.threads == threads
    {
      this.salt, this.time, this.memoryKB, this.threads := salt, time, memoryKB, threads;
    }
  }

  /** `ensureKDFParams`: each zero cost field is set to the recommended value. */
  method EnsureKDFParams(p: KDFParams)
    modifies p
    ensures p.time == (if old(p.time) == 0 then 6 else old(p.time))
    ensures p.memoryKB == (if old(p.memoryKB) == 0 then 262144 else old(p.memoryKB))
    ensures p.threads == (if old(p.threads) == 0 then 4 else old(p.threads))
    ensures p.salt == old(p.salt)
  {
    if p.time == 0 {
      p.time := 6;
    }
    if p.memoryKB == 0 {
      p.memoryKB := 256 * 1024;
    }
    if p.threads == 0 {
      p.threads := 4;
    }
  }

  // ---------------------------------------------------------------------------
  // Key derivation and rehash
  // ---------------------------------------------------------------------------

  /** The primitives key derivation is built from: Argon2id on the password and
    * parameters, and HKDF-SHA256 expansion for a purpose string. */
  datatype Kdf = Kdf(root: (string, VaultParams) -> seq<u8>, expand: (seq<u8>, string) -> Result<seq<u8>>)

  /** `DeriveKeys`: the master and vault keys expanded from one root key, or an
    * error when a purpose string is missing or an expansion fails. */
  function DeriveKeys(password: string, p: VaultParams, kdf: Kdf): (r: Result<(seq<u8>, seq<u8>)>)
    ensures p.masterKeyPurpose == "" || p.vaultKeyPurpose == "" ==>
      r == Err("vault params missing HKDF purpose strings")
    ensures r.Ok? ==>
      var root := kdf.root(password, p);
      kdf.expand(root, p.masterKeyPurpose) == Ok(r.value.0) &&
      kdf.expand(root, p.vaultKeyPurpose) == Ok(r.value.1)
  {
    var root := kdf.root(password, p);
    if p.masterKeyPurpose == "" || p.vaultKeyPurpose == "" then
      Err("vault params missing HKDF purpose strings")
    else
      match kdf.expand(root, p.masterKeyPurpose)
      case Err(m) => Err(m)
      case Ok(mk) =>
        match kdf.expand(root, p.vaultKeyPurpose)
        case Err(v) => Err(v)
        case Ok(vk) => Ok((mk, vk))
  }

  /** The parameters a rehash writes: the same salt and purposes at the
    * recommended cost. */
  function Rehashed(prev: VaultParams): (q: VaultParams)
    ensures q.salt == prev.salt
    ensures q.masterKeyPurpose == prev.masterKeyPurpose && q.vaultKeyPurpose == prev.vaultKeyPurpose
    ensures !NeedsRehash(q)
    ensures BackFill(q) == q
  {
    VaultParams(1, prev.salt, RecommendedTime, RecommendedMemory, RecommendedThreads,
                "argon2id", "aes-256-gcm", prev.masterKeyPurpose, prev.vaultKeyPurpose)
  }

  /** Once the old keys were derived, deriving the new ones can only fail in an
    * expansion, never on the purpose guard. */
  lemma RehashedDerivable(password: string, prev: VaultParams, kdf: Kdf)
    requires DeriveKeys(password, prev, kdf).Ok?
    ensures var root := kdf.root(password, Rehashed(prev));
      DeriveKeys(password, Rehashed(prev), kdf).Err? <==>
        kdf.expand(root, prev.masterKeyPurpose).Err? || kdf.expand(root, prev.vaultKeyPurpose).Err?
  {
  }

  /** The writes of a rehash, in the order they happen. */
  datatype Step = WriteSecret(params: VaultParams, masterKey: seq<u8>)
                | ReKeyEntries(oldKey: seq<u8>, newKey: seq<u8>)
                | SaveParams(params: VaultParams)

  /** The outcomes of the checks and writes a rehash performs on disk. */
  datatype RehashEnv = RehashEnv(
    checkSecret: seq<u8> -> Outcome,
    writeSecret: Outcome,
    reKey: Outcome,
    saveParams: Outcome)

  /** `RehashVault`: derive the old keys and check them against `.secret`, derive
    * the new keys, then write `.secret`, re-key the entries and save the
    * parameters, in that order, stopping at the first failure. */
  method RehashVault(password: string, oldParams: VaultParams, kdf: Kdf, env: RehashEnv)
    returns (r: Result<VaultParams>, steps: seq<Step>)
    ensures r.Ok? ==> (r.value == Rehashed(oldParams) && |steps| == 3 &&
      steps[0].WriteSecret? && steps[0].params == Rehashed(oldParams) &&
      steps[1].ReKeyEntries? &&
      steps[2] == SaveParams(Rehashed(oldParams)))
    ensures r.Ok? <==>
      DeriveKeys(password, oldParams, kdf).Ok? &&
      env.checkSecret(DeriveKeys(password, oldParams, kdf).value.0) == Pass &&
      DeriveKeys(password, Rehashed(oldParams), kdf).Ok? &&
      env.writeSecret == Pass && env.reKey == Pass && env.saveParams == Pass
    ensures |steps| <= 3
    ensures |steps| >= 1 ==>
      DeriveKeys(password, oldParams, kdf).Ok? && DeriveKeys(password, Rehashed(oldParams), kdf).Ok? &&
      steps[0] == WriteSecret(Rehashed(oldParams), DeriveKeys(password, Rehashed(oldParams), kdf).value.0)
    ensures |steps| >= 2 ==>
      (env.writeSecret == Pass &&
       steps[1] == ReKeyEntries(DeriveKeys(password, oldParams, kdf).value.1,
                                DeriveKeys(password, Rehashed(oldParams), kdf).value.1))
    ensures |steps| == 3 ==> env.reKey == Pass && steps[2] == SaveParams(Rehashed(oldParams))
    ensures !DeriveKeys(password, oldParams, kdf).Ok? ==> (steps == [] &&
      r == Err("deriving old keys: " + DeriveKeys(password, oldParams, kdf).msg))
  {
    steps := [];
    var oldKeys := DeriveKeys(password, oldParams, kdf);
    if oldKeys.Err? {
      return Err("deriving old keys: " + oldKeys.msg), steps;
    }
    var (oldMasterKey, oldVaultKey) := oldKeys.value;
    var check := env.checkSecret(oldMasterKey);
    if check.Fail? {
      return Err("old keys invalid (wrong password?): " + check.msg), steps;
    }
    var newParams := VaultParams(1, oldParams.salt, RecommendedTime, RecommendedMemory, RecommendedThreads,
                                 "argon2id", "aes-256-gcm", oldParams.masterKeyPurpose, oldParams.vaultKeyPurpose);
    var newKeys := DeriveKeys(password, newParams, kdf);
    if newKeys.Err? {
      return Err("deriving new keys: " + newKeys.msg), steps;
    }
    var (newMasterKey, newVaultKey) := newKeys.value;
    steps := steps + [WriteSecret(newParams, newMasterKey)];
    if env.writeSecret.Fail? {
      return Err("re-keying vault secret: " + env.writeSecret.msg), steps;
    }
    steps := steps + [ReKeyEntries(oldVaultKey, newVaultKey)];
    if env.reKey.Fail? {
      return Err("re-keying entries: " + env.reKey.msg), steps;
    }
    steps := steps + [SaveParams(newParams)];
    if env.saveParams.Fail? {
      return Err("saving vault params: " + env.saveParams.msg), steps;
    }
    return Ok(newParams), steps;
  }
}
