/**
 The two chat controllers as they run: load the stored ratchet into an object,
 advance it in place, and write it back at the point where the source does. A
 crash ends the call at that point; only what was written survives.
 */
module Controllers {
  import opened Basics
  import opened Crypto
  import opened Wire
  import opened Ratchet
  import opened X3dh
  import opened Session
  import EnvelopeCodec

  /** mobile/lib/features/chat/chat_controller.dart, for one admin device. */
  class ChatController {
    const config: Config
    var session: Option<State>
    var peerEd: Option<nat>
    var sent: seq<Outgoing>
    var accepted: seq<Incoming>

    function Value(): Party
      reads this
    {
      Party(session, peerEd, sent, accepted)
    }

    constructor (c: Config)
      ensures config == c && Value() == NEW_PARTY
    {
      config := c;
      session, peerEd, sent, accepted := None, None, [], [];
    }

    /** `eph`, `dh` and `nonce` are the random choices of the call. */
    method SendText(text: string, bundle: Bundle, eph: nat, dh: nat, nonce: nat, crash: Crash)
      modifies this
      ensures Value() == UserSends(config, old(Value()), text, bundle, eph, dh, nonce, crash)
    {
      var ratchet;
      var boot: Option<Header> := None;
      if session.None? {
        if !VerifySignedPrekey(bundle) {
          return;
        }
        var sk := Initiate(config.userX, bundle.identityX, bundle.spkPub, OpkPubOf(bundle), eph);
        ratchet := new DoubleRatchet(Initiator(sk, bundle.spkPub, dh));
        peerEd := Some(bundle.identityEd);
        boot := Some(BootstrapHeader(config.userEd, Pub(config.userX), Pub(eph), bundle.spkId, OpkIdOf(bundle)));
      } else {
        ratchet := new DoubleRatchet(session.value);
      }
      var mk := ratchet.NextSendKey();
      var n := ratchet.nSend - 1;
      var aad := EnvelopeCodec.Aad(config.userDev, config.adminDev, n);
      var env := Envelope(config.userDev, config.adminDev, ratchet.dhSendPub, ratchet.pn, n, boot, nonce,
                          Box(mk, nonce, aad, text));
      if crash.BeforeSave? {
        return;
      }
      session := Some(ratchet.Value());
      sent := sent + [Outgoing(env, false)];
      if !crash.NoCrash? {
        return;
      }
      sent := sent[|sent| - 1 := Outgoing(env, true)];
    }

    method HandleIncoming(packet: Packet, newPriv: nat, crash: Crash)
      modifies this
      ensures Value() == UserReceives(old(Value()), packet, newPriv, crash)
    {
      var env := packet.env;
      if env.bootstrap.Some? || session.None? || peerEd.None? || !Verify(packet, peerEd.value) {
        return;
      }
      var ratchet := new DoubleRatchet(session.value);
      if env.ratchetPub != ratchet.dhRecvPub {
        ratchet.RatchetReceive(env.ratchetPub, newPriv);
      }
      var mk := ratchet.NextRecvKey();
      var pt := Open(env, mk);
      if pt.None? || crash.BeforeSave? {
        return;
      }
      session := Some(ratchet.Value());
      accepted := accepted + [Incoming(env, pt.value, false)];
      if !crash.NoCrash? {
        return;
      }
      accepted := accepted[|accepted| - 1 := Incoming(env, pt.value, true)];
    }
  }

  /** admin-mobile/lib/features/chat/admin_chat_controller.dart, for one user device. */
  class AdminChatController {
    const config: Config
    var session: Option<State>
    var peerEd: Option<nat>
    var sent: seq<Outgoing>
    var accepted: seq<Incoming>
    var opks: map<int, nat>

    function Value(): Party
      reads this
    {
      Party(session, peerEd, sent, accepted)
    }

    constructor (c: Config, oneTimePrekeys: map<int, nat>)
      ensures config == c && Value() == NEW_PARTY && opks == oneTimePrekeys
    {
      config := c;
      session, peerEd, sent, accepted := None, None, [], [];
      opks := oneTimePrekeys;
    }

    method SendReply(text: string, nonce: nat, crash: Crash) returns (ok: bool)
      modifies this
      ensures Value() == AdminSends(config, old(Value()), text, nonce, crash) && opks == old(opks)
      ensures ok <==> old(session).Some? && crash.NoCrash?
    {
      if session.None? {
        return false;
      }
      var ratchet := new DoubleRatchet(session.value);
      var mk := ratchet.NextSendKey();
      var n := ratchet.nSend - 1;
      var aad := EnvelopeCodec.Aad(config.adminDev, config.userDev, n);
      var env := Envelope(config.adminDev, config.userDev, ratchet.dhSendPub, ratchet.pn, n, None, nonce,
                          Box(mk, nonce, aad, text));
      if crash.BeforeSave? {
        return false;
      }
      session := Some(ratchet.Value());
      sent := sent + [Outgoing(env, false)];
      if !crash.NoCrash? {
        return false;
      }
      sent := sent[|sent| - 1 := Outgoing(env, true)];
      return true;
    }

    method HandleIncoming(packet: Packet, newPriv: nat, crash: Crash)
      modifies this
      ensures (Value(), opks) == AdminReceives(config, old(Value()), old(opks), packet, newPriv, crash)
    {
      if packet.env.bootstrap.Some? {
        HandleBootstrap(packet, newPriv, crash);
      } else {
        HandleSteadyState(packet, newPriv, crash);
      }
    }

    method ConsumeOneTimePrekey(id: int) returns (opk: Option<nat>)
      modifies `opks
      ensures opk == (if id in old(opks) then Some(old(opks)[id]) else None)
      ensures opks == old(opks) - {id}
    {
      if id !in opks {
        opk := None;
      } else {
        opk := Some(opks[id]);
      }
      opks := opks - {id};
    }

    method HandleBootstrap(packet: Packet, newPriv: nat, crash: Crash)
      requires packet.env.bootstrap.Some?
      modifies this
      ensures (Value(), opks) == AdminBootstraps(config, old(Value()), old(opks), packet, newPriv, crash)
    {
      var env, hdr := packet.env, packet.env.bootstrap.value;
      if !Verify(packet, hdr.identityEd25519) || hdr.signedPrekeyId != config.spkId {
        return;
      }
      var opk: Option<nat> := None;
      if hdr.oneTimePrekeyId != 0 {
        opk := ConsumeOneTimePrekey(hdr.oneTimePrekeyId);
        if opk.None? {
          assert opks == old(opks);
          return;
        }
      }
      assert opk == OneTimeFor(old(opks), hdr);
      var sk := Respond(config.adminX, config.spk, hdr.identityX25519, hdr.ephemeralX25519, opk);
      var ratchet := new DoubleRatchet(Responder(sk, config.spk, Pub(config.spk)));
      ratchet.RatchetReceive(env.ratchetPub, newPriv);
      var mk := ratchet.NextRecvKey();
      var pt := Open(env, mk);
      if pt.None? || crash.BeforeSave? {
        return;
      }
      session := Some(ratchet.Value());
      accepted := accepted + [Incoming(env, pt.value, false)];
      if crash.AfterSave? {
        return;
      }
      peerEd := Some(hdr.identityEd25519);
      if crash.AfterCache? {
        return;
      }
      accepted := accepted[|accepted| - 1 := Incoming(env, pt.value, true)];
      assert accepted == old(accepted) + [Incoming(env, pt.value, true)];
    }

    method HandleSteadyState(packet: Packet, newPriv: nat, crash: Crash)
      modifies this
      ensures Value() == SteadyState(old(Value()), packet, newPriv, crash) && opks == old(opks)
    {
      var env := packet.env;
      if session.None? || peerEd.None? || !Verify(packet, peerEd.value) {
        return;
      }
      var ratchet := new DoubleRatchet(session.value);
      if env.ratchetPub != ratchet.dhRecvPub {
        ratchet.RatchetReceive(env.ratchetPub, newPriv);
      }
      var mk := ratchet.NextRecvKey();
      var pt := Open(env, mk);
      if pt.None? || crash.BeforeSave? {
        return;
      }
      session := Some(ratchet.Value());
      accepted := accepted + [Incoming(env, pt.value, false)];
      if !crash.NoCrash? {
        return;
      }
      accepted := accepted[|accepted| - 1 := Incoming(env, pt.value, true)];
    }
  }
}
