/** packages/kalki_crypto/lib/src/ratchet.dart */
module Ratchet {
  import opened Basics
  import opened Crypto

  const MSG_INFO: byte := 0x01
  const CHAIN_INFO: byte := 0x02

  /** The nine fields of a stored ratchet; generic so that the stored blob can use bytes. */
  datatype RatchetState<K, S, P> = RatchetState(
    rootKey: K,
    sendChainKey: K,
    recvChainKey: K,
    dhSendPriv: S,
    dhSendPub: P,
    dhRecvPub: P,
    nSend: int,
    nRecv: int,
    pn: int)

  type State = RatchetState<Key, nat, Pub>

  function Sent<K, S, P>(r: RatchetState<K, S, P>, nextChainKey: K): RatchetState<K, S, P>
  {
    r.(sendChainKey := nextChainKey, nSend := r.nSend + 1)
  }

  function Received<K, S, P>(r: RatchetState<K, S, P>, nextChainKey: K): RatchetState<K, S, P>
  {
    r.(recvChainKey := nextChainKey, nRecv := r.nRecv + 1)
  }

  function Rotated<K, S, P>(r: RatchetState<K, S, P>, rk: K, ckSend: K, ckRecv: K,
                            priv: S, pub: P, peerPub: P): RatchetState<K, S, P>
  {
    RatchetState(rk, ckSend, ckRecv, priv, pub, peerPub, 0, 0, r.nSend)
  }

  function KdfChain(ck: Key, info: byte): Key { Hmac(ck, info) }

  function RootKdf(rk: Key, dh: Key): (Key, Key) { (HkdfLeft(rk, dh), HkdfRight(rk, dh)) }

  function Initiator(sharedSecret: Key, peerSignedPrekey: Pub, newPriv: nat): State
  {
    var (rk, ckSend) := RootKdf(sharedSecret, X25519(newPriv, peerSignedPrekey));
    RatchetState(rk, ckSend, Zero, newPriv, Pub(newPriv), peerSignedPrekey, 0, 0, 0)
  }

  function Responder(sharedSecret: Key, signedPrekeyPriv: nat, signedPrekeyPub: Pub): State
  {
    RatchetState(sharedSecret, Zero, Zero, signedPrekeyPriv, signedPrekeyPub, NoPub, 0, 0, 0)
  }

  function SendKey(r: State): Key { KdfChain(r.sendChainKey, MSG_INFO) }

  function AfterSend(r: State): State
  {
    Sent(r, KdfChain(r.sendChainKey, CHAIN_INFO))
  }

  function RecvKey(r: State): Key { KdfChain(r.recvChainKey, MSG_INFO) }

  function AfterRecv(r: State): State
  {
    Received(r, KdfChain(r.recvChainKey, CHAIN_INFO))
  }

  /** One DH ratchet step: a root step on the peer's new key, a second one on our own fresh pair. */
  function AfterRotate(r: State, newPeerPub: Pub, newPriv: nat): State
  {
    var (rk1, ckRecv) := RootKdf(r.rootKey, X25519(r.dhSendPriv, newPeerPub));
    var (rk2, ckSend) := RootKdf(rk1, X25519(newPriv, newPeerPub));
    Rotated(r, rk2, ckSend, ckRecv, newPriv, Pub(newPriv), newPeerPub)
  }

  /** The mutable ratchet of a chat peer, updated field by field. */
  class DoubleRatchet {
    var rootKey: Key
    var sendChainKey: Key
    var recvChainKey: Key
    var dhSendPriv: nat
    var dhSendPub: Pub
    var dhRecvPub: Pub
    var nSend: int
    var nRecv: int
    var pn: int

    function Value(): State
      reads this
    {
      RatchetState(rootKey, sendChainKey, recvChainKey, dhSendPriv, dhSendPub, dhRecvPub, nSend, nRecv, pn)
    }

    constructor (s: State)
      ensures Value() == s
    {
      rootKey, sendChainKey, recvChainKey := s.rootKey, s.sendChainKey, s.recvChainKey;
      dhSendPriv, dhSendPub, dhRecvPub := s.dhSendPriv, s.dhSendPub, s.dhRecvPub;
      nSend, nRecv, pn := s.nSend, s.nRecv, s.pn;
    }

    method NextSendKey() returns (mk: Key)
      modifies this
      ensures mk == SendKey(old(Value()))
      ensures Value() == AfterSend(old(Value()))
    {
      mk := KdfChain(sendChainKey, MSG_INFO);
      sendChainKey := KdfChain(sendChainKey, CHAIN_INFO);
      nSend := nSend + 1;
    }

    method NextRecvKey() returns (mk: Key)
      modifies this
      ensures mk == RecvKey(old(Value()))
      ensures Value() == AfterRecv(old(Value()))
    {
      mk := KdfChain(recvChainKey, MSG_INFO);
      recvChainKey := KdfChain(recvChainKey, CHAIN_INFO);
      nRecv := nRecv + 1;
    }

    method RatchetReceive(newPeerPub: Pub, newPriv: nat)
      modifies this
      ensures Value() == AfterRotate(old(Value()), newPeerPub, newPriv)
    {
      var dh1 := X25519(dhSendPriv, newPeerPub);
      var (rk1, ckRecv) := RootKdf(rootKey, dh1);
      var dh2 := X25519(newPriv, newPeerPub);
      var (rk2, ckSend) := RootKdf(rk1, dh2);
      pn := nSend;
      nSend := 0;
      nRecv := 0;
      rootKey := rk2;
      recvChainKey := ckRecv;
      sendChainKey := ckSend;
      dhSendPriv := newPriv;
      dhSendPub := Pub(newPriv);
      dhRecvPub := newPeerPub;
    }
  }

  /**
   A rotation against the peer's key lands the receive chain on the chain the
   peer opened with that key, and the two roots on one line: whoever holds
   `peer` and stepped its root against our current key has the same pair.
   */
  lemma RotationMeetsPeer(r: State, peerPriv: nat, newPriv: nat)
    ensures var met := RootKdf(r.rootKey, X25519(peerPriv, Pub(r.dhSendPriv)));
            var r' := AfterRotate(r, Pub(peerPriv), newPriv);
            && r'.recvChainKey == met.1
            && (r'.rootKey, r'.sendChainKey) == RootKdf(met.0, X25519(peerPriv, Pub(newPriv)))
  {
    DhAgrees(peerPriv, r.dhSendPriv, r.dhSendPriv);
    DhAgrees(peerPriv, newPriv, newPriv);
  }

  // ---- The keys in terms of the primitives -------------------------------------

  function AfterSends(r: State, n: nat): State { if n == 0 then r else AfterSend(AfterSends(r, n - 1)) }

  function AfterRecvs(r: State, n: nat): State { if n == 0 then r else AfterRecv(AfterRecvs(r, n - 1)) }

  /** The chain of section 3.5 of "The Double Ratchet Algorithm": HMAC of the constant 2, over and over. */
  function ChainAt(ck: Key, n: nat): Key { if n == 0 then ck else Hmac(ChainAt(ck, n - 1), 0x02) }

  /** Message n of a chain, counted from 0, is under HMAC of the constant 1, whichever end derives it. */
  lemma {:induction false} NthKeys(r: State, n: nat)
    ensures SendKey(AfterSends(r, n)) == Hmac(ChainAt(r.sendChainKey, n), 0x01)
    ensures RecvKey(AfterRecvs(r, n)) == Hmac(ChainAt(r.recvChainKey, n), 0x01)
    ensures AfterSends(r, n) == r.(sendChainKey := ChainAt(r.sendChainKey, n), nSend := r.nSend + n)
    ensures AfterRecvs(r, n) == r.(recvChainKey := ChainAt(r.recvChainKey, n), nRecv := r.nRecv + n)
  {
    if n > 0 {
      NthKeys(r, n - 1);
    }
  }

  /** Bytes 0 to 32 of each root KDF are the next root, bytes 32 to 64 the chain: first to receive, then to send. */
  lemma RotationKeys(r: State, peerPub: Pub, newPriv: nat)
    ensures var dh1, dh2 := X25519(r.dhSendPriv, peerPub), X25519(newPriv, peerPub);
            var r' := AfterRotate(r, peerPub, newPriv);
            && r'.recvChainKey == HkdfRight(r.rootKey, dh1)
            && r'.rootKey == HkdfLeft(HkdfLeft(r.rootKey, dh1), dh2)
            && r'.sendChainKey == HkdfRight(HkdfLeft(r.rootKey, dh1), dh2)
  {
  }

  /** The initiator starts with one such step on the X3DH secret, the responder with the secret itself. */
  lemma StartingKeys(secret: Key, spk: nat, newPriv: nat)
    ensures var a, b := Initiator(secret, Pub(spk), newPriv), Responder(secret, spk, Pub(spk));
            var dh := X25519(newPriv, Pub(spk));
            && a.rootKey == HkdfLeft(secret, dh) && a.sendChainKey == HkdfRight(secret, dh) && a.recvChainKey == Zero
            && b.rootKey == secret && b.sendChainKey == Zero && b.recvChainKey == Zero
            && (a.nSend, a.nRecv, a.pn) == (0, 0, 0) && (b.nSend, b.nRecv, b.pn) == (0, 0, 0)
  {
  }

  /** A message key is not the chain key that stays behind, so giving it away does not give away the rest. */
  lemma MessageKeyIsNotStored(r: State)
    ensures SendKey(r) != AfterSend(r).sendChainKey && RecvKey(r) != AfterRecv(r).recvChainKey
  {
  }
}
