/** The byte-level guards around AES-GCM in `internal/crypto/crypto.go`: wiping
  * key material in place, rejecting an all-zero nonce, the key-length and
  * ciphertext-length checks, and the `nonce || sealed` layout that decryption
  * splits again. The cipher itself is a parameter of the model. */
module CryptoAead {
  import opened Wrappers
  import opened Text
  import opened Bytes

  /** `WipeBytes`: every byte of the slice becomes zero; a nil slice is left alone. */
  method WipeBytes(b: array?<u8>)
    modifies b
    ensures b != null ==> b[..] == Zeros(b.Length)
  {
    if b == null {
      return;
    }
    for i := 0 to b.Length
      invariant forall j :: 0 <= j < i ==> b[j] == 0
    {
      b[i] := 0;
    }
  }

  /** Whether some byte is not zero. */
  predicate NonZero(s: seq<u8>)
  {
    exists i :: 0 <= i < |s| && s[i] != 0
  }

  /** `generateNonce`: the bytes read from the random source, unless reading failed
    * or they are all zero. */
  method GenerateNonce(size: nat, read: Result<seq<u8>>) returns (r: Result<seq<u8>>)
    requires read.Ok? ==> |read.value| == size
    ensures read.Err? ==> r == Err("generating nonce: " + read.msg)
    ensures read.Ok? && !NonZero(read.value) ==> r == Err("generating nonce: CSPRNG returned all-zero bytes")
    ensures read.Ok? && NonZero(read.value) ==> r == Ok(read.value)
  {
    if read.Err? {
      return Err("generating nonce: " + read.msg);
    }
    var nonce := read.value;
    var allZero := true;
    for i := 0 to |nonce|
      invariant allZero <==> forall j :: 0 <= j < i ==> nonce[j] == 0
    {
      if nonce[i] != 0 {
        allZero := false;
        break;
      }
    }
    if allZero {
      return Err("generating nonce: CSPRNG returned all-zero bytes");
    }
    return Ok(nonce);
  }

  /** The nonce size of AES-GCM. */
  const NonceSize := 12

  /** AES-GCM as the model sees it: sealing a plaintext under a key, a nonce and
    * additional data, and opening a sealed body again. */
  datatype Gcm = Gcm(
    seal: (seq<u8>, seq<u8>, seq<u8>, seq<u8>) -> seq<u8>,
    open: (seq<u8>, seq<u8>, seq<u8>, seq<u8>) -> Result<seq<u8>>)

  /** `aes.NewCipher`'s key check: AES-128, -192 or -256. */
  function NewCipherCheck(key: seq<u8>): (o: Outcome)
    ensures o == Pass <==> |key| in {16, 24, 32}
  {
    if |key| in {16, 24, 32} then Pass else Fail("crypto/aes: invalid key size " + Itoa(|key|))
  }

  /** `Decrypt`: a ciphertext is `nonce || sealed`; one shorter than a nonce is rejected. */
  function Decrypt(key: seq<u8>, ciphertext: seq<u8>, gcm: Gcm): (r: Result<seq<u8>>)
    ensures |ciphertext| < NonceSize && NewCipherCheck(key) == Pass ==> r == Err("ciphertext too short")
    ensures r.Ok? ==> |key| in {16, 24, 32} && |ciphertext| >= NonceSize
  {
    var check := NewCipherCheck(key);
    if check.Fail? then Err(check.msg)
    else if |ciphertext| < NonceSize then Err("ciphertext too short")
    else gcm.open(key, ciphertext[..NonceSize], ciphertext[NonceSize..], [])
  }

  /** `DecryptAES256GCM`: only 32-byte keys, and the same layout and length check. */
  function DecryptAES256GCM(ciphertext: seq<u8>, key: seq<u8>, aad: seq<u8>, gcm: Gcm): (r: Result<seq<u8>>)
    ensures |key| != 32 ==> r == Err("key must be 32 bytes for AES-256")
    ensures |key| == 32 && |ciphertext| < NonceSize ==> r == Err("ciphertext too short")
    ensures r.Ok? ==> |key| == 32 && |ciphertext| >= NonceSize
  {
    if |key| != 32 then Err("key must be 32 bytes for AES-256")
    else if |ciphertext| < NonceSize then Err("ciphertext too short")
    else
      match gcm.open(key, ciphertext[..NonceSize], ciphertext[NonceSize..], aad)
      case Err(m) => Err(m)
      case Ok(plain) => Ok(plain)
  }

  /** `Encrypt`: the nonce followed by the sealed plaintext. */
  method Encrypt(key: seq<u8>, plaintext: seq<u8>, gcm: Gcm, random: Result<seq<u8>>) returns (r: Result<seq<u8>>)
    requires random.Ok? ==> |random.value| == NonceSize
    ensures r.Ok? ==> (NewCipherCheck(key) == Pass && random.Ok? && NonZero(random.value) &&
      r.value == random.value + gcm.seal(key, random.value, plaintext, []))
    ensures NewCipherCheck(key).Fail? ==> r == Err(NewCipherCheck(key).msg)
    ensures NewCipherCheck(key) == Pass && random.Ok? && NonZero(random.value) ==> r.Ok?
  {
    var check := NewCipherCheck(key);
    if check.Fail? {
      return Err(check.msg);
    }
    var nonce := GenerateNonce(NonceSize, random);
    if nonce.Err? {
      return Err(nonce.msg);
    }
    return Ok(nonce.value + gcm.seal(key, nonce.value, plaintext, []));
  }

  /** `EncryptAES256GCM`: only 32-byte keys; the nonce followed by the sealed
    * plaintext, bound to `aad`. */
  method EncryptAES256GCM(plaintext: seq<u8>, key: seq<u8>, aad: seq<u8>, gcm: Gcm, random: Result<seq<u8>>)
    returns (r: Result<seq<u8>>)
    requires random.Ok? ==> |random.value| == NonceSize
    ensures |key| != 32 ==> r == Err("key must be 32 bytes for AES-256")
    ensures r.Ok? ==> (|key| == 32 && random.Ok? && NonZero(random.value) &&
      r.value == random.value + gcm.seal(key, random.value, plaintext, aad))
    ensures |key| == 32 && random.Ok? && NonZero(random.value) ==> r.Ok?
  {
    if |key| != 32 {
      return Err("key must be 32 bytes for AES-256");
    }
    var nonce := GenerateNonce(NonceSize, random);
    if nonce.Err? {
      return Err(nonce.msg);
    }
    return Ok(nonce.value + gcm.seal(key, nonce.value, plaintext, aad));
  }

  /** Decryption splits the layout encryption builds: when the cipher opens what it
    * sealed, decrypting an encryption gives the plaintext back. */
  lemma EncryptDecrypt(key: seq<u8>, nonce: seq<u8>, plaintext: seq<u8>, aad: seq<u8>, gcm: Gcm)
    requires |key| == 32 && |nonce| == NonceSize
    requires gcm.open(key, nonce, gcm.seal(key, nonce, plaintext, aad), aad) == Ok(plaintext)
    ensures DecryptAES256GCM(nonce + gcm.seal(key, nonce, plaintext, aad), key, aad, gcm) == Ok(plaintext)
  {
    var ct := nonce + gcm.seal(key, nonce, plaintext, aad);
    assert ct[..NonceSize] == nonce;
    assert ct[NonceSize..] == gcm.seal(key, nonce, plaintext, aad);
  }

  /** The same for `Encrypt` and `Decrypt`, which use no additional data. */
  lemma EncryptDecryptPlain(key: seq<u8>, nonce: seq<u8>, plaintext: seq<u8>, gcm: Gcm)
    requires |key| in {16, 24, 32} && |nonce| == NonceSize
    requires gcm.open(key, nonce, gcm.seal(key, nonce, plaintext, []), []) == Ok(plaintext)
    ensures Decrypt(key, nonce + gcm.seal(key, nonce, plaintext, []), gcm) == Ok(plaintext)
  {
    var ct := nonce + gcm.seal(key, nonce, plaintext, []);
    assert ct[..NonceSize] == nonce;
    assert ct[NonceSize..] == gcm.seal(key, nonce, plaintext, []);
  }
}
