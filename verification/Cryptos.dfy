/**
 * Idealised cryptography. The primitives that scripts/weechat/rpe2e.py takes from libsodium are the fields of a
 * `Crypto`, and `Ideal` is what the protocol needs of them: Diffie-Hellman commutes, decryption inverts encryption
 * under the same key, nonce and associated data, and a signature verifies under its own key. Nothing else is assumed,
 * so the results hold for every implementation with these laws.
 */
module Cryptos {
  import opened Wrappers
  import opened Utf8

  datatype Crypto = Crypto(
    /** `crypto_scalarmult_base`. */
    scalarPublic: Bytes -> Bytes,
    /** `x25519_ecdh(sk, peer_pk)`. */
    agree: (Bytes, Bytes) -> Bytes,
    /** `hkdf_sha256(HKDF_SALT, shared, info, 32)`. */
    derive: (Bytes, Bytes) -> Bytes,
    /** `crypto_aead_xchacha20poly1305_ietf_encrypt`: key, nonce, associated data, plaintext. */
    seal: (Bytes, Bytes, Bytes, Bytes) -> Bytes,
    /** `aead_decrypt`: key, nonce, associated data, ciphertext. */
    open: (Bytes, Bytes, Bytes, Bytes) -> Option<Bytes>,
    /** The Ed25519 public key of a secret key. */
    signPublic: Bytes -> Bytes,
    /** `ed25519_sign(sk, msg)`. */
    sign: (Bytes, Bytes) -> Bytes,
    /** `ed25519_verify(pk, msg, sig)`. */
    verify: (Bytes, Bytes, Bytes) -> bool,
    /** `ed25519_pk_to_x25519`. */
    publicToX25519: Bytes -> Bytes,
    /** `ed25519_sk_to_x25519_scalar(sk, pk)`. */
    secretToX25519: (Bytes, Bytes) -> Bytes,
    /** `fingerprint(pk)`. */
    fingerprint: Bytes -> Bytes)

  ghost predicate Ideal(c: Crypto) {
    && (forall a, b :: c.agree(a, c.scalarPublic(b)) == c.agree(b, c.scalarPublic(a)))
    && (forall key, nonce, aad, text :: c.open(key, nonce, aad, c.seal(key, nonce, aad, text)) == Some(text))
    && (forall sk, msg :: c.verify(c.signPublic(sk), msg, c.sign(sk, msg)))
    && (forall sk :: c.publicToX25519(c.signPublic(sk)) == c.scalarPublic(c.secretToX25519(sk, c.signPublic(sk))))
    && (forall sk :: |c.scalarPublic(sk)| == 32)
    && (forall sk :: |c.signPublic(sk)| == 32)
    && (forall sk, msg :: |c.sign(sk, msg)| == 64)
  }

  function Zeros(n: nat): (b: Bytes)
    ensures |b| == n
  {
    seq(n, _ => 0)
  }

  /** The laws are consistent: here is an instance of them, with no secrecy at all. */
  lemma IdealCryptoExists() returns (c: Crypto)
    ensures Ideal(c)
  {
    c := Crypto(
      _ => Zeros(32), (_, _) => [], (_, _) => Zeros(32), (_, _, _, text) => text, (_, _, _, ct) => Some(ct),
      _ => Zeros(32), (_, _) => Zeros(64), (_, _, _) => true, pk => pk, (_, _) => Zeros(32), pk => pk);
  }
}
