// Idealised primitives. A cipher, hash or signature scheme is a record of functions
// together with the law it is assumed to keep; nothing else about it is used.
module Crypto {
  import opened Base
  import opened Bytes

  const NONCE_LEN := 12
  const TAG_LEN := 16
  const KEY_LEN := 32

  type Nonce = n: Bytes | |n| == NONCE_LEN witness seq(NONCE_LEN, _ => 0)
  type Key = k: Bytes | |k| == KEY_LEN witness seq(KEY_LEN, _ => 0)
  type Digest = d: Bytes | |d| == 32 witness seq(32, _ => 0)

  datatype CryptoError =
    | BadKeyLength
    | SealFailed
    | TooShort
    | UnexpectedNonce
    | OpenFailed
    | NonceSpaceExhausted

  // ----- authenticated encryption ----------------------------------------------------

  // Arguments of both functions: key, nonce, associated data, then plaintext or ciphertext-with-tag.
  datatype Aead = Aead(
    encrypt: (Key, Nonce, Bytes, Bytes) -> Option<Bytes>,
    decrypt: (Key, Nonce, Bytes, Bytes) -> Option<Bytes>)

  // What was encrypted decrypts, and a ciphertext is a tag longer than its plaintext.
  ghost predicate Lawful(c: Aead) {
    forall k: Key, n: Nonce, aad: Bytes, p: Bytes ::
      c.encrypt(k, n, aad, p).Some? ==>
        && |c.encrypt(k, n, aad, p).value| == |p| + TAG_LEN
        && c.decrypt(k, n, aad, c.encrypt(k, n, aad, p).value) == Some(p)
  }

  // Output: nonce, then ciphertext with tag.
  function SealAad(c: Aead, plaintext: Bytes, dek: Bytes, aad: Bytes, nonce: Nonce): Result<Bytes, CryptoError> {
    if |dek| != KEY_LEN then Err(BadKeyLength)
    else match c.encrypt(dek, nonce, aad, plaintext)
      case None => Err(SealFailed)
      case Some(ct) => Ok(nonce + ct)
  }

  function OpenAad(c: Aead, envelope: Bytes, dek: Bytes, aad: Bytes): Result<Bytes, CryptoError> {
    if |dek| != KEY_LEN then Err(BadKeyLength)
    else if |envelope| < NONCE_LEN + TAG_LEN then Err(TooShort)
    else match c.decrypt(dek, envelope[..NONCE_LEN], aad, envelope[NONCE_LEN..])
      case None => Err(OpenFailed)
      case Some(p) => Ok(p)
  }

  function Seal(c: Aead, plaintext: Bytes, dek: Bytes, nonce: Nonce): Result<Bytes, CryptoError> {
    SealAad(c, plaintext, dek, [], nonce)
  }

  function Open(c: Aead, envelope: Bytes, dek: Bytes): Result<Bytes, CryptoError> {
    OpenAad(c, envelope, dek, [])
  }

  // Opening with an expected nonce: the frame's own nonce prefix must equal it.
  function OpenNonce(c: Aead, frame: Bytes, dek: Bytes, expected: Nonce): Result<Bytes, CryptoError> {
    if |dek| != KEY_LEN then Err(BadKeyLength)
    else if |frame| < NONCE_LEN + TAG_LEN then Err(TooShort)
    else if frame[..NONCE_LEN] != expected then Err(UnexpectedNonce)
    else OpenAad(c, frame, dek, [])
  }

  lemma SealedOpens(c: Aead, plaintext: Bytes, dek: Bytes, aad: Bytes, nonce: Nonce)
    requires Lawful(c)
    requires SealAad(c, plaintext, dek, aad, nonce).Ok?
    ensures OpenAad(c, SealAad(c, plaintext, dek, aad, nonce).value, dek, aad) == Ok(plaintext)
    ensures |SealAad(c, plaintext, dek, aad, nonce).value| == NONCE_LEN + |plaintext| + TAG_LEN
  {
    var ct := c.encrypt(dek, nonce, aad, plaintext).value;
    assert (nonce + ct)[..NONCE_LEN] == nonce && (nonce + ct)[NONCE_LEN..] == ct;
  }

  // With an expected nonce, it opens if and only if that is the nonce it was sealed with.
  lemma SealedOpensAtItsNonce(c: Aead, plaintext: Bytes, dek: Bytes, nonce: Nonce, expected: Nonce)
    requires Lawful(c) && Seal(c, plaintext, dek, nonce).Ok?
    ensures OpenNonce(c, Seal(c, plaintext, dek, nonce).value, dek, expected)
            == if expected == nonce then Ok(plaintext) else Err(UnexpectedNonce)
  {
    SealedOpens(c, plaintext, dek, [], nonce);
    assert Seal(c, plaintext, dek, nonce).value[..NONCE_LEN] == nonce;
  }

  // The law can be kept: a cipher that appends sixteen zero bytes keeps it.
  lemma LawfulCipherExists()
    ensures exists c: Aead :: Lawful(c)
  {
    var tag: Bytes := seq(TAG_LEN, _ => 0);
    var c := Aead(
      (k: Key, n: Nonce, aad: Bytes, p: Bytes) => Some(p + tag),
      (k: Key, n: Nonce, aad: Bytes, e: Bytes) =>
        if |e| >= TAG_LEN then Some(e[..|e| - TAG_LEN]) else None);
    forall k: Key, n: Nonce, aad: Bytes, p: Bytes
      ensures c.decrypt(k, n, aad, p + tag) == Some(p)
    {
      assert (p + tag)[..|p + tag| - TAG_LEN] == p;
    }
    assert Lawful(c);
  }
}
