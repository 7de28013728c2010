/**
 * `encryptSecrets` and `decryptSecrets`: CryptoJS AES under a passphrase.
 * The cipher itself is a pair of opaque functions; what is modelled is the
 * choice of passphrase and the way a failed decryption is swallowed.
 */
module SecretCrypto {
  import opened Common

  /** The outcome of one call into the AES decryption: a plaintext, or an exception. */
  datatype Attempt = Returned(text: string) | Threw

  /**
   * AES encryption and decryption of a text under a passphrase. Encryption
   * is a function of the text and the passphrase alone: the random salt
   * CryptoJS draws on every call is not part of the model.
   */
  datatype Cipher = Cipher(encrypt: (string, string) -> string, decrypt: (string, string) -> Attempt)

  /** Decryption under a passphrase undoes encryption under the same passphrase. */
  ghost predicate RoundTrips(c: Cipher)
  {
    forall s, p :: c.decrypt(c.encrypt(s, p), p) == Returned(s)
  }

  /**
   * `passphrase || machineId`: an absent or empty passphrase falls back to
   * the machine id; any other passphrase is used as it is.
   */
  function Passphrase(given: Option<string>, machineId: string): (p: string)
    ensures given.Some? && given.value != "" ==> p == given.value
    ensures given.None? || given.value == "" ==> p == machineId
  {
    if given.Some? && given.value != "" then given.value else machineId
  }

  function EncryptSecrets(c: Cipher, secrets: string, passphrase: Option<string>, machineId: string): string
  {
    c.encrypt(secrets, Passphrase(passphrase, machineId))
  }

  /** `decryptSecrets`: the plaintext, or `undefined` when the decryption throws. */
  function DecryptSecrets(c: Cipher, secrets: string, passphrase: Option<string>, machineId: string): (r: Option<string>)
    ensures r.None? <==> c.decrypt(secrets, Passphrase(passphrase, machineId)).Threw?
    ensures r.Some? ==> c.decrypt(secrets, Passphrase(passphrase, machineId)) == Returned(r.value)
  {
    match c.decrypt(secrets, Passphrase(passphrase, machineId))
    case Returned(text) => Some(text)
    case Threw => None
  }

  /** Giving no passphrase, an empty one or the machine id itself all select the same key, so they decrypt alike. */
  lemma FallbackAgrees(c: Cipher, s: string, machineId: string)
    ensures Passphrase(None, machineId) == Passphrase(Some(""), machineId) == Passphrase(Some(machineId), machineId) == machineId
    ensures DecryptSecrets(c, s, None, machineId) == DecryptSecrets(c, s, Some(""), machineId)
    ensures DecryptSecrets(c, s, None, machineId) == DecryptSecrets(c, s, Some(machineId), machineId)
  {
  }

  /** A non-empty passphrase is the key itself, whatever the machine id, so decryption ignores the machine id. */
  lemma GivenPassphraseWins(c: Cipher, s: string, p: string, m1: string, m2: string)
    requires p != ""
    ensures Passphrase(Some(p), m1) == Passphrase(Some(p), m2) == p
    ensures DecryptSecrets(c, s, Some(p), m1) == DecryptSecrets(c, s, Some(p), m2)
  {
  }

  /** With a cipher that round-trips, decrypting what was encrypted under the same passphrase gives it back. */
  lemma DecryptEncrypt(c: Cipher, s: string, passphrase: Option<string>, machineId: string)
    requires RoundTrips(c)
    ensures DecryptSecrets(c, EncryptSecrets(c, s, passphrase, machineId), passphrase, machineId) == Some(s)
  {
    var p := Passphrase(passphrase, machineId);
    assert c.decrypt(c.encrypt(s, p), p) == Returned(s);
  }
}
