/** packages/kalki_crypto/lib/src/x3dh.dart */
module X3dh {
  import opened Basics
  import opened Crypto
  import opened Ratchet

  function Hkdf32(ikm: seq<Key>): Key { Secret(ikm) }

  /** The initiator's secret, for the ephemeral scalar `eph` it generated. */
  function Initiate(ourIdentity: nat, peerIdentity: Pub, peerSignedPrekey: Pub,
                    peerOneTime: Option<Pub>, eph: nat): Key
  {
    var ikm := [X25519(ourIdentity, peerSignedPrekey), X25519(eph, peerIdentity), X25519(eph, peerSignedPrekey)];
    match peerOneTime
    case None => Hkdf32(ikm)
    case Some(opk) => Hkdf32(ikm + [X25519(eph, opk)])
  }

  /** The responder's secret, from its own private halves. */
  function Respond(ourIdentity: nat, ourSignedPrekey: nat, peerIdentity: Pub,
                   peerEphemeral: Pub, ourOneTime: Option<nat>): Key
  {
    var ikm := [X25519(ourSignedPrekey, peerIdentity), X25519(ourIdentity, peerEphemeral),
                X25519(ourSignedPrekey, peerEphemeral)];
    match ourOneTime
    case None => Hkdf32(ikm)
    case Some(opk) => Hkdf32(ikm + [X25519(opk, peerEphemeral)])
  }

  function PublicOf(opk: Option<nat>): Option<Pub>
  {
    if opk.None? then None else Some(Pub(opk.value))
  }

  /**
   The two runs derive one secret if and only if the responder used exactly the
   private halves of the keys the initiator saw, the one-time prekey included
   or left out alike.
   */
  lemma SecretsAgreeIff(ikA: nat, eph: nat, ikB: nat, spk: nat, opk: Option<nat>,
                        ikB': nat, spk': nat, opk': Option<nat>)
    ensures Initiate(ikA, Pub(ikB), Pub(spk), PublicOf(opk), eph)
         == Respond(ikB', spk', Pub(ikA), Pub(eph), opk')
       <==> ikB == ikB' && spk == spk' && opk == opk'
  {
    var a := [X25519(ikA, Pub(spk)), X25519(eph, Pub(ikB)), X25519(eph, Pub(spk))];
    var b := [X25519(spk', Pub(ikA)), X25519(ikB', Pub(eph)), X25519(spk', Pub(eph))];
    DhAgrees(ikA, spk, spk');
    DhAgrees(eph, ikB, ikB');
    DhAgrees(eph, spk, spk');
    assert a == b <==> a[0] == b[0] && a[1] == b[1] && a[2] == b[2];
    if opk.Some? && opk'.Some? {
      DhAgrees(eph, opk.value, opk'.value);
      var a' := a + [X25519(eph, Pub(opk.value))];
      var b' := b + [X25519(opk'.value, Pub(eph))];
      assert a' == b' <==> a == b && a'[3] == b'[3] by {
        assert a'[..3] == a && b'[..3] == b;
      }
    } else if opk.Some? {
      assert |a + [X25519(eph, Pub(opk.value))]| != |b|;
    } else if opk'.Some? {
      assert |b + [X25519(opk'.value, Pub(eph))]| != |a|;
    }
  }

  /**
   A bootstrap puts both ends on one chain, with and without a one-time prekey:
   after the responder's first rotation on the key in the envelope, its receive
   chain is the initiator's first send chain and its root is one step ahead.
   */
  lemma BootstrapMeets(ikA: nat, eph: nat, ikB: nat, spk: nat, opk: Option<nat>, ratchetA: nat, ratchetB: nat)
    ensures var a := Initiator(Initiate(ikA, Pub(ikB), Pub(spk), PublicOf(opk), eph), Pub(spk), ratchetA);
            var b0 := Responder(Respond(ikB, spk, Pub(ikA), Pub(eph), opk), spk, Pub(spk));
            var b := AfterRotate(b0, a.dhSendPub, ratchetB);
            && b.recvChainKey == a.sendChainKey
            && RecvKey(b) == SendKey(a)
            && (b.rootKey, b.sendChainKey) == RootKdf(a.rootKey, X25519(a.dhSendPriv, b.dhSendPub))
            && b.dhRecvPub == a.dhSendPub
  {
    SecretsAgreeIff(ikA, eph, ikB, spk, opk, ikB, spk, opk);
    var b0 := Responder(Respond(ikB, spk, Pub(ikA), Pub(eph), opk), spk, Pub(spk));
    RotationMeetsPeer(b0, ratchetA, ratchetB);
  }

  /**
   Seen from the responder's keys, the secret pins the initiator: the identity
   the responder takes for the peer's, the ephemeral key and the one-time prekey
   must all be the ones the initiator used.
   */
  lemma InitiatorIsBoundIff(ikA: nat, eph: nat, ikB: nat, spk: nat, opk: Option<nat>,
                            ikA': nat, eph': nat, opk': Option<nat>)
    ensures Initiate(ikA, Pub(ikB), Pub(spk), PublicOf(opk), eph)
         == Respond(ikB, spk, Pub(ikA'), Pub(eph'), opk')
       <==> ikA == ikA' && eph == eph' && opk == opk'
  {
    var a := [X25519(ikA, Pub(spk)), X25519(eph, Pub(ikB)), X25519(eph, Pub(spk))];
    var b := [X25519(spk, Pub(ikA')), X25519(ikB, Pub(eph')), X25519(spk, Pub(eph'))];
    DhAgrees(spk, ikA, ikA');
    DhAgrees(ikB, eph, eph');
    DhAgrees(spk, eph, eph');
    assert a == b <==> a[0] == b[0] && a[1] == b[1] && a[2] == b[2];
    if opk.Some? && opk'.Some? {
      var a' := a + [X25519(eph, Pub(opk.value))];
      var b' := b + [X25519(opk'.value, Pub(eph'))];
      DhAgrees(eph, opk.value, opk'.value);
      assert a' == b' <==> a == b && a'[3] == b'[3] by {
        assert a'[..3] == a && b'[..3] == b;
      }
    } else if opk.Some? {
      assert |a + [X25519(eph, Pub(opk.value))]| != |b|;
    } else if opk'.Some? {
      assert |b + [X25519(opk'.value, Pub(eph'))]| != |a|;
    }
  }

  /** What two scalars agree on, whoever computes it. */
  function Agreed(a: nat, b: nat): Key { if a <= b then Shared(a, b) else Shared(b, a) }

  /** Section 3.3 of X3DH: DH(IKA, SPKB), DH(EKA, IKB), DH(EKA, SPKB) and, with a one-time prekey, DH(EKA, OPKB), in this order. */
  lemma SharesInOrder(ikA: nat, eph: nat, ikB: nat, spk: nat, opk: nat)
    ensures Initiate(ikA, Pub(ikB), Pub(spk), None, eph)
         == Secret([Agreed(ikA, spk), Agreed(eph, ikB), Agreed(eph, spk)])
    ensures Initiate(ikA, Pub(ikB), Pub(spk), Some(Pub(opk)), eph)
         == Secret([Agreed(ikA, spk), Agreed(eph, ikB), Agreed(eph, spk), Agreed(eph, opk)])
  {
  }
}
