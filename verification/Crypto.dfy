/**
 Symbolic cryptography, the assumption every session result rests on.

 Keys are terms of a free algebra, so HMAC and HKDF are injective and their
 outputs never collide with each other. A private X25519 scalar is a number,
 its public half wraps that number, and a shared secret is the unordered pair
 of the two scalars. AES-GCM opens exactly when key, nonce and associated data
 are those of the seal; a signature verifies exactly when that identity signed
 those contents.
 */
module Crypto {
  import opened Basics

  datatype Key =
    | Zero                              // 32 zero bytes
    | Shared(lo: nat, hi: nat)          // X25519 output
    | Secret(ikm: seq<Key>)             // the HKDF output of X3DH
    | HkdfLeft(rk: Key, dh: Key)        // bytes 0..32 of the root KDF
    | HkdfRight(rk: Key, dh: Key)       // bytes 32..64 of the root KDF
    | Hmac(ck: Key, info: byte)

  datatype Pub = NoPub | Pub(priv: nat)

  function X25519(priv: nat, remote: Pub): (k: Key)
  {
    match remote
    case NoPub => Zero
    case Pub(other) => if priv <= other then Shared(priv, other) else Shared(other, priv)
  }

  /** Both ends of a Diffie-Hellman exchange compute one secret, and one end's secret pins the other's scalar. */
  lemma DhAgrees(a: nat, b: nat, c: nat)
    ensures X25519(a, Pub(b)) == X25519(b, Pub(a))
    ensures X25519(a, Pub(b)) == X25519(c, Pub(a)) <==> b == c
  {
  }

  /** An AES-GCM ciphertext with its tag, as a term. */
  datatype Box = Box(key: Key, nonce: nat, aad: Bytes, plaintext: string)

  function Decrypt(box: Box, key: Key, nonce: nat, aad: Bytes): Option<string>
  {
    if box.key == key && box.nonce == nonce && box.aad == aad then Some(box.plaintext) else None
  }
}
