/**
  The secrets keyring (apps/api/internal/pkg/crypto/keyring.go) over an abstract authenticated
  cipher: the byte layout of an envelope, decryption of envelopes and of older raw blobs, rewrapping.
 */
module Keyring {
  import opened Base

  type byte = b: int | 0 <= b < 256

  type Bytes = seq<byte>

  /** AES-256-GCM. The key is 32 bytes and the nonce 12. */
  datatype Cipher = Cipher(seal: (Bytes, Bytes, Bytes) -> Bytes, unseal: (Bytes, Bytes, Bytes) -> Option<Bytes>)

  /** Opening undoes sealing, and a seal adds a 16-byte tag. */
  ghost predicate Lawful(c: Cipher) {
    forall key: Bytes, nonce: Bytes, p: Bytes | |key| == KEY_LEN && |nonce| == NONCE_LEN ::
      |c.seal(key, nonce, p)| == |p| + TAG_LEN && c.unseal(key, nonce, c.seal(key, nonce, p)) == Some(p)
  }

  const MAGIC: Bytes := [0x50, 0x61, 0x61, 0x53, 0x01]
  const KEY_LEN := 32
  const NONCE_LEN := 12
  const TAG_LEN := 16
  const HEADER_LEN := 6
  const WRAPPED_LEN := 48
  const ENVELOPE_MIN := HEADER_LEN + NONCE_LEN + WRAPPED_LEN + NONCE_LEN + TAG_LEN

  /** One Key Encryption Key per version, and the version new secrets are sealed under. */
  datatype Keys = Keys(keks: map<byte, Bytes>, current: byte)

  /** What NewKeyring accepts. */
  ghost predicate Valid(k: Keys) {
    k.current in k.keks && forall v <- k.keks :: |k.keks[v]| == KEY_LEN
  }

  /** The random bytes one encryption draws. */
  datatype Draw = Draw(dek: Bytes, dekNonce: Bytes, dataNonce: Bytes)

  predicate IsDraw(d: Draw) { |d.dek| == KEY_LEN && |d.dekNonce| == NONCE_LEN && |d.dataNonce| == NONCE_LEN }

  predicate IsEnvelope(ct: Bytes) { |ct| >= ENVELOPE_MIN && ct[..|MAGIC|] == MAGIC }

  predicate IsCurrent(k: Keys, ct: Bytes) { IsEnvelope(ct) && ct[5] == k.current }

  function Encrypt(c: Cipher, k: Keys, p: Bytes, d: Draw): Bytes
    requires k.current in k.keks
  {
    MAGIC + [k.current] + d.dekNonce + c.seal(k.keks[k.current], d.dekNonce, d.dek) + d.dataNonce +
        c.seal(d.dek, d.dataNonce, p)
  }

  function DecryptEnvelope(c: Cipher, k: Keys, ct: Bytes): Option<Bytes>
    requires IsEnvelope(ct)
  {
    if ct[5] !in k.keks then None
    else
      var dekNonce := ct[HEADER_LEN..][..NONCE_LEN];
      var wrapped := ct[HEADER_LEN + NONCE_LEN..][..WRAPPED_LEN];
      var dataNonce := ct[HEADER_LEN + NONCE_LEN + WRAPPED_LEN..][..NONCE_LEN];
      var data := ct[HEADER_LEN + NONCE_LEN + WRAPPED_LEN + NONCE_LEN..];
      match c.unseal(k.keks[ct[5]], dekNonce, wrapped)
      case None => None
      case Some(dek) => c.unseal(dek, dataNonce, data)
  }

  /** Blobs from before the keyring are a nonce and a body under key version 1. */
  function DecryptLegacy(c: Cipher, k: Keys, ct: Bytes): Option<Bytes> {
    if 1 !in k.keks || |ct| < NONCE_LEN then None
    else c.unseal(k.keks[1], ct[..NONCE_LEN], ct[NONCE_LEN..])
  }

  function Decrypt(c: Cipher, k: Keys, ct: Bytes): Option<Bytes> {
    if IsEnvelope(ct) then DecryptEnvelope(c, k, ct) else DecryptLegacy(c, k, ct)
  }

  function Rewrap(c: Cipher, k: Keys, ct: Bytes, d: Draw): Option<Bytes>
    requires k.current in k.keks
  {
    match Decrypt(c, k, ct)
    case None => None
    case Some(p) => Some(Encrypt(c, k, p, d))
  }

  /** The six parts of an envelope sit where the decoder looks for them. */
  lemma EnvelopeParts(version: byte, dekNonce: Bytes, wrapped: Bytes, dataNonce: Bytes, data: Bytes)
    requires |dekNonce| == NONCE_LEN && |wrapped| == WRAPPED_LEN && |dataNonce| == NONCE_LEN && |data| >= TAG_LEN
    ensures var ct := MAGIC + [version] + dekNonce + wrapped + dataNonce + data;
            && IsEnvelope(ct) && ct[5] == version
            && ct[HEADER_LEN..][..NONCE_LEN] == dekNonce
            && ct[HEADER_LEN + NONCE_LEN..][..WRAPPED_LEN] == wrapped
            && ct[HEADER_LEN + NONCE_LEN + WRAPPED_LEN..][..NONCE_LEN] == dataNonce
            && ct[HEADER_LEN + NONCE_LEN + WRAPPED_LEN + NONCE_LEN..] == data
  {
    var ct := MAGIC + [version] + dekNonce + wrapped + dataNonce + data;
    assert ct[..|MAGIC|] == MAGIC;
    assert ct[HEADER_LEN..][..NONCE_LEN] == dekNonce;
    assert ct[HEADER_LEN + NONCE_LEN..][..WRAPPED_LEN] == wrapped;
    assert ct[HEADER_LEN + NONCE_LEN + WRAPPED_LEN..][..NONCE_LEN] == dataNonce;
    assert ct[HEADER_LEN + NONCE_LEN + WRAPPED_LEN + NONCE_LEN..] == data;
  }

  /** Decrypting undoes encrypting for every plaintext, the empty one included, and the result is tagged current. */
  lemma DecryptUndoesEncrypt(c: Cipher, k: Keys, p: Bytes, d: Draw)
    requires Lawful(c) && Valid(k) && IsDraw(d)
    ensures Decrypt(c, k, Encrypt(c, k, p, d)) == Some(p)
    ensures IsCurrent(k, Encrypt(c, k, p, d))
  {
    var kek := k.keks[k.current];
    EnvelopeParts(k.current, d.dekNonce, c.seal(kek, d.dekNonce, d.dek), d.dataNonce, c.seal(d.dek, d.dataNonce, p));
  }

  /** Rewrapping keeps the plaintext, yields the current version, and fails exactly when the blob cannot be read. */
  lemma RewrapKeepsPlaintext(c: Cipher, k: Keys, ct: Bytes, d: Draw)
    requires Lawful(c) && Valid(k) && IsDraw(d)
    ensures Rewrap(c, k, ct, d).Some? <==> Decrypt(c, k, ct).Some?
    ensures Rewrap(c, k, ct, d).Some? ==>
      IsCurrent(k, Rewrap(c, k, ct, d).value) && Decrypt(c, k, Rewrap(c, k, ct, d).value) == Decrypt(c, k, ct)
  {
    match Decrypt(c, k, ct)
    case None =>
    case Some(p) => DecryptUndoesEncrypt(c, k, p, d);
  }

  /** A current blob needs the current key only: any keyring that still has it reads the same. */
  lemma CurrentNeedsOnlyCurrent(c: Cipher, k: Keys, fewer: Keys, ct: Bytes)
    requires IsCurrent(k, ct) && k.current in k.keks && k.current in fewer.keks &&
             fewer.keks[k.current] == k.keks[k.current]
    ensures Decrypt(c, fewer, ct) == Decrypt(c, k, ct)
  {
  }

  // ----- What can be read -----

  /** The layout in bytes: the magic, the version, a nonce, the wrapped key, a nonce, the data and its tag. */
  lemma EnvelopeLayout(c: Cipher, k: Keys, p: Bytes, d: Draw)
    requires Lawful(c) && Valid(k) && IsDraw(d)
    ensures var ct := Encrypt(c, k, p, d);
      && |ct| == 94 + |p|
      && ct[..6] == [0x50, 0x61, 0x61, 0x53, 0x01, k.current]
      && ct[6..18] == d.dekNonce && ct[66..78] == d.dataNonce
      && c.unseal(k.keks[k.current], ct[6..18], ct[18..66]) == Some(d.dek)
      && c.unseal(d.dek, ct[66..78], ct[78..]) == Some(p)
  {
    var wrapped, data := c.seal(k.keks[k.current], d.dekNonce, d.dek), c.seal(d.dek, d.dataNonce, p);
    EnvelopeParts(k.current, d.dekNonce, wrapped, d.dataNonce, data);
    InNumbers(Encrypt(c, k, p, d));
  }

  /** The decoder's offsets in numbers. */
  lemma InNumbers(ct: Bytes)
    requires IsEnvelope(ct)
    ensures ct[..6] == [0x50, 0x61, 0x61, 0x53, 0x01, ct[5]]
    ensures ct[6..18] == ct[HEADER_LEN..][..NONCE_LEN] && ct[18..66] == ct[HEADER_LEN + NONCE_LEN..][..WRAPPED_LEN]
    ensures ct[66..78] == ct[HEADER_LEN + NONCE_LEN + WRAPPED_LEN..][..NONCE_LEN]
    ensures ct[78..] == ct[HEADER_LEN + NONCE_LEN + WRAPPED_LEN + NONCE_LEN..]
  {
    assert ct[..6] == ct[..5] + [ct[5]];
  }

  /** A secret sealed under any version whose key is still there is read; under an older one it is not current. */
  lemma OldVersionsAreRead(c: Cipher, k: Keys, version: byte, p: Bytes, d: Draw)
    requires Lawful(c) && Valid(k) && IsDraw(d) && version in k.keks
    ensures var ct := Encrypt(c, Keys(k.keks, version), p, d);
      && Decrypt(c, k, ct) == Some(p) && (IsCurrent(k, ct) <==> version == k.current)
  {
    var was := Keys(k.keks, version);
    DecryptUndoesEncrypt(c, was, p, d);
    EnvelopeLayout(c, was, p, d);
    var ct := Encrypt(c, was, p, d);
    assert ct[5] == ct[..6][5] == version;
  }

  /** An envelope of a version whose key is gone is not. */
  lemma GoneVersionsAreNot(c: Cipher, k: Keys, ct: Bytes)
    requires |ct| >= 94 && ct[..5] == [0x50, 0x61, 0x61, 0x53, 0x01] && ct[5] !in k.keks
    ensures Decrypt(c, k, ct) == None
  {
  }

  /** A blob from before the keyring is a 12-byte nonce and a body sealed under key version 1. */
  function LegacyBlob(c: Cipher, k: Keys, nonce: Bytes, p: Bytes): Bytes
    requires 1 in k.keks
  {
    nonce + c.seal(k.keks[1], nonce, p)
  }

  /** It passes for an envelope exactly when its nonce begins with the magic and it is long enough. */
  lemma LegacyLooksLikeEnvelopeIff(c: Cipher, k: Keys, nonce: Bytes, p: Bytes)
    requires Lawful(c) && Valid(k) && 1 in k.keks && |nonce| == 12
    ensures IsEnvelope(LegacyBlob(c, k, nonce, p)) <==>
            nonce[..5] == [0x50, 0x61, 0x61, 0x53, 0x01] && |p| >= 66
  {
    var blob := LegacyBlob(c, k, nonce, p);
    assert |blob| == 28 + |p| && blob[..5] == nonce[..5];
  }

  /** Unless it does, it is read and never current, and rewrapping it gives a current envelope of what it held. */
  lemma LegacyIsRead(c: Cipher, k: Keys, nonce: Bytes, p: Bytes, d: Draw)
    requires Lawful(c) && Valid(k) && IsDraw(d) && 1 in k.keks && |nonce| == 12
    requires nonce[..5] != [0x50, 0x61, 0x61, 0x53, 0x01] || |p| < 66
    ensures var blob := LegacyBlob(c, k, nonce, p);
      && Decrypt(c, k, blob) == Some(p) && !IsCurrent(k, blob)
      && Rewrap(c, k, blob, d) == Some(Encrypt(c, k, p, d))
      && Decrypt(c, k, Encrypt(c, k, p, d)) == Some(p) && IsCurrent(k, Encrypt(c, k, p, d))
  {
    var blob := LegacyBlob(c, k, nonce, p);
    LegacyLooksLikeEnvelopeIff(c, k, nonce, p);
    assert blob[..12] == nonce && blob[12..] == c.seal(k.keks[1], nonce, p);
    DecryptUndoesEncrypt(c, k, p, d);
  }

  /** Without key version 1 no such blob is read, nor anything shorter than a nonce. */
  lemma NothingElseIsRead(c: Cipher, k: Keys, ct: Bytes)
    requires |ct| < 94 || ct[..5] != [0x50, 0x61, 0x61, 0x53, 0x01]
    ensures 1 !in k.keks || |ct| < 12 ==> Decrypt(c, k, ct) == None
    ensures !IsCurrent(k, ct)
  {
  }
}
