/**
 One user device and one admin device talking through the server: what
 mobile/lib/features/chat/chat_controller.dart and
 admin-mobile/lib/features/chat/admin_chat_controller.dart do to the stored
 ratchet and the message tables, one controller call at a time.
 */
module Session {
  import opened Basics
  import opened Crypto
  import opened Wire
  import opened Ratchet
  import opened X3dh
  import EnvelopeCodec

  type Header = BootstrapHeader<nat, Pub>
  type Env = Envelope<nat, Pub, nat, Box>

  /** An Ed25519 signature, as a term: who signed, and what. */
  datatype Signature = Signature(signer: nat, signed: Env)

  /** What the server hands to a device; it need not be what anybody sent. */
  datatype Packet = Packet(env: Env, signature: Signature)

  function Signed(env: Env, signer: nat): Packet { Packet(env, Signature(signer, env)) }

  predicate Verify(packet: Packet, signer: nat)
  {
    packet.signature == Signature(signer, packet.env)
  }

  /** Long-lived identities and keys of the two devices. */
  datatype Config = Config(
    userDev: Bytes, adminDev: Bytes,
    userEd: nat, adminEd: nat,              // Ed25519 identities
    userX: nat, adminX: nat,                // X25519 identity scalars
    spkId: int, spk: nat)                   // the admin's signed prekey

  /** The prekey bundle of GET /v1/prekeys. */
  datatype Bundle = Bundle(
    identityEd: nat, identityX: Pub,
    spkId: int, spkPub: Pub, spkSigner: nat, spkSigned: Pub,
    opk: Option<(int, Pub)>)

  /**
   Where the process dies inside a call: nowhere, before `saveRatchet`, right
   after it, or after the peer's identity is cached and before the message is
   stored. Only the admin's bootstrap writes between the last two.
   */
  datatype Crash = NoCrash | BeforeSave | AfterSave | AfterCache

  /** An outgoing envelope whose ratchet was saved; it may or may not have left the device. */
  datatype Outgoing = Outgoing(env: Env, transmitted: bool)

  /** An incoming envelope whose ratchet was saved; it may or may not have reached the message table. */
  datatype Incoming = Incoming(env: Env, plaintext: string, inserted: bool)

  /** The durable state of one device for the one peer. */
  datatype Party = Party(
    session: Option<State>,        // ratchet_state
    peerEd: Option<nat>,           // peer_ed25519_<peer>
    sent: seq<Outgoing>,
    accepted: seq<Incoming>)

  // ---- Sending --------------------------------------------------------------

  /** The envelope sealed with the ratchet `r`, before `r` advances. */
  function SealWith(r: State, sender: Bytes, recipient: Bytes, boot: Option<Header>, text: string, nonce: nat): Env
  {
    var aad := EnvelopeCodec.Aad(sender, recipient, AfterSend(r).nSend - 1);
    Envelope(sender, recipient, r.dhSendPub, r.pn, AfterSend(r).nSend - 1, boot, nonce, Box(SendKey(r), nonce, aad, text))
  }

  /** Save the advanced ratchet, then let the envelope out. */
  function Emit(p: Party, r: State, env: Env, crash: Crash): Party
  {
    if crash.BeforeSave? then p
    else p.(session := Some(AfterSend(r)), sent := p.sent + [Outgoing(env, crash.NoCrash?)])
  }

  function VerifySignedPrekey(b: Bundle): bool { b.spkSigner == b.identityEd && b.spkSigned == b.spkPub }

  function OpkIdOf(b: Bundle): int { if b.opk.Some? then b.opk.value.0 else 0 }

  function OpkPubOf(b: Bundle): Option<Pub> { if b.opk.Some? then Some(b.opk.value.1) else None }

  function HeaderFor(c: Config, b: Bundle, eph: nat): Header
  {
    BootstrapHeader(c.userEd, Pub(c.userX), Pub(eph), b.spkId, OpkIdOf(b))
  }

  /** The ratchet _bootstrapSessionTo builds from the ephemeral `eph` and the ratchet scalar `dh`. */
  function BootstrapRatchet(c: Config, b: Bundle, eph: nat, dh: nat): State
  {
    Initiator(Initiate(c.userX, b.identityX, b.spkPub, OpkPubOf(b), eph), b.spkPub, dh)
  }

  /** sendText: bootstraps when there is no stored session. */
  function UserSends(c: Config, u: Party, text: string, b: Bundle, eph: nat, dh: nat, nonce: nat, crash: Crash): Party
  {
    match u.session
    case Some(r) =>
      Emit(u, r, SealWith(r, c.userDev, c.adminDev, None, text, nonce), crash)
    case None =>
      if !VerifySignedPrekey(b) then u
      else
        var r := BootstrapRatchet(c, b, eph, dh);
        var env := SealWith(r, c.userDev, c.adminDev, Some(HeaderFor(c, b, eph)), text, nonce);
        Emit(u.(peerEd := Some(b.identityEd)), r, env, crash)
  }

  /** sendReply: only within an existing session. */
  function AdminSends(c: Config, a: Party, text: string, nonce: nat, crash: Crash): Party
  {
    match a.session
    case None => a
    case Some(r) => Emit(a, r, SealWith(r, c.adminDev, c.userDev, None, text, nonce), crash)
  }

  // ---- Receiving ------------------------------------------------------------

  function Open(env: Env, key: Key): Option<string>
  {
    Decrypt(env.ciphertext, key, env.nonce, EnvelopeCodec.Aad(env.senderDevId, env.recipientDevId, env.msgNumber))
  }

  /** The ratchet that derives the key for `env`: rotated first when the peer's key is new. */
  function Facing(r: State, env: Env, newPriv: nat): State
  {
    if env.ratchetPub != r.dhRecvPub then AfterRotate(r, env.ratchetPub, newPriv) else r
  }

  /** Derive, open, and only then save. */
  function Absorb(p: Party, r: State, env: Env, newPriv: nat, crash: Crash): Party
  {
    var facing := Facing(r, env, newPriv);
    match Open(env, RecvKey(facing))
    case None => p
    case Some(text) =>
      if crash.BeforeSave? then p
      else p.(session := Some(AfterRecv(facing)),
              accepted := p.accepted + [Incoming(env, text, crash.NoCrash?)])
  }

  /** A type-0 envelope, on either device. */
  function SteadyState(p: Party, packet: Packet, newPriv: nat, crash: Crash): Party
  {
    if p.session.None? || p.peerEd.None? || !Verify(packet, p.peerEd.value) then p
    else Absorb(p, p.session.value, packet.env, newPriv, crash)
  }

  /** The user app only initiates, so it discards bootstraps. */
  function UserReceives(u: Party, packet: Packet, newPriv: nat, crash: Crash): Party
  {
    if packet.env.bootstrap.Some? then u else SteadyState(u, packet, newPriv, crash)
  }

  /** The admin's one-time prekey for a header: none asked for, found, or gone. */
  function OneTimeFor(opks: map<int, nat>, h: Header): Option<nat>
  {
    if h.oneTimePrekeyId != 0 && h.oneTimePrekeyId in opks then Some(opks[h.oneTimePrekeyId]) else None
  }

  predicate Answerable(c: Config, opks: map<int, nat>, packet: Packet)
    requires packet.env.bootstrap.Some?
  {
    var h := packet.env.bootstrap.value;
    && Verify(packet, h.identityEd25519)
    && h.signedPrekeyId == c.spkId
    && (h.oneTimePrekeyId == 0 || h.oneTimePrekeyId in opks)
  }

  function ResponderRatchet(c: Config, opks: map<int, nat>, h: Header): State
  {
    var sk := Respond(c.adminX, c.spk, h.identityX25519, h.ephemeralX25519, OneTimeFor(opks, h));
    Responder(sk, c.spk, Pub(c.spk))
  }

  /** _handleBootstrap: consume the one-time prekey, respond, rotate, open, save, cache the identity. */
  function AdminBootstraps(c: Config, a: Party, opks: map<int, nat>, packet: Packet, newPriv: nat, crash: Crash)
    : (Party, map<int, nat>)
    requires packet.env.bootstrap.Some?
  {
    if !Answerable(c, opks, packet) then (a, opks)
    else
      var h := packet.env.bootstrap.value;
      var left := if h.oneTimePrekeyId != 0 then opks - {h.oneTimePrekeyId} else opks;
      var facing := AfterRotate(ResponderRatchet(c, opks, h), packet.env.ratchetPub, newPriv);
      match Open(packet.env, RecvKey(facing))
      case None => (a, left)
      case Some(text) =>
        if crash.BeforeSave? then (a, left)
        else
          var saved := a.(session := Some(AfterRecv(facing)),
                          accepted := a.accepted + [Incoming(packet.env, text, crash.NoCrash?)]);
          (if crash.AfterSave? then saved else saved.(peerEd := Some(h.identityEd25519)), left)
  }

  function AdminReceives(c: Config, a: Party, opks: map<int, nat>, packet: Packet, newPriv: nat, crash: Crash)
    : (Party, map<int, nat>)
  {
    if packet.env.bootstrap.Some? then AdminBootstraps(c, a, opks, packet, newPriv, crash)
    else (SteadyState(a, packet, newPriv, crash), opks)
  }

  // ---- The two devices and the network ------------------------------------------

  /** `next` is the source of fresh X25519 scalars. */
  datatype World = World(user: Party, admin: Party, opks: map<int, nat>, next: nat)

  const NEW_PARTY := Party(None, None, [], [])

  function Initial(opks: map<int, nat>, next: nat): World { World(NEW_PARTY, NEW_PARTY, opks, next) }

  datatype Step =
    | UserSend(text: string, bundle: Bundle, nonce: nat, crash: Crash)
    | AdminSend(text: string, nonce: nat, crash: Crash)
    | ToUser(packet: Packet, crash: Crash)
    | ToAdmin(packet: Packet, crash: Crash)

  function Next(c: Config, w: World, step: Step): World
  {
    match step
    case UserSend(text, b, nonce, crash) =>
      w.(user := UserSends(c, w.user, text, b, w.next, w.next + 1, nonce, crash), next := w.next + 2)
    case AdminSend(text, nonce, crash) =>
      w.(admin := AdminSends(c, w.admin, text, nonce, crash))
    case ToUser(packet, crash) =>
      w.(user := UserReceives(w.user, packet, w.next, crash), next := w.next + 1)
    case ToAdmin(packet, crash) =>
      var (a, opks) := AdminReceives(c, w.admin, w.opks, packet, w.next, crash);
      w.(admin := a, opks := opks, next := w.next + 1)
  }

  /** Envelopes that left a device and can be delivered any number of times, in any order, or never. */
  predicate OnTheWire(env: Env, log: seq<Outgoing>)
  {
    exists i :: 0 <= i < |log| && log[i] == Outgoing(env, true)
  }

  /** A signature by `signer` covers only envelopes that device let out. */
  predicate Unforged(packet: Packet, signer: nat, log: seq<Outgoing>)
  {
    packet.signature.signer == signer ==> OnTheWire(packet.signature.signed, log)
  }

  /** The server serves the admin's own keys, and a one-time prekey the admin still holds. */
  predicate Genuine(c: Config, opks: map<int, nat>, b: Bundle)
  {
    && b.identityEd == c.adminEd && b.identityX == Pub(c.adminX)
    && b.spkId == c.spkId && b.spkPub == Pub(c.spk)
    && (b.opk.Some? ==> b.opk.value.0 != 0 && b.opk.value.0 in opks && b.opk.value.1 == Pub(opks[b.opk.value.0]))
  }

  /**
   What the environment can do. Delivery is adversarial; the only bounds are
   unforgeable signatures, genuine bundles, nobody else bootstrapping under this
   user's device, and no second delivery of a bootstrap without one-time prekey.
   */
  predicate Possible(c: Config, w: World, step: Step)
  {
    match step
    case UserSend(_, b, _, _) => Genuine(c, w.opks, b)
    case AdminSend(_, _, _) => true
    case ToUser(packet, _) => Unforged(packet, c.adminEd, w.admin.sent)
    case ToAdmin(packet, _) =>
      && Unforged(packet, c.userEd, w.user.sent)
      && (packet.env.bootstrap.Some? ==>
            && packet.env.bootstrap.value.identityEd25519 == c.userEd
            && (w.admin.session.Some? ==> packet.env.bootstrap.value.oneTimePrekeyId != 0))
  }

  function Run(c: Config, w: World, steps: seq<Step>): World
    decreases |steps|
  {
    if steps == [] then w else Run(c, Next(c, w, steps[0]), steps[1..])
  }

  predicate PossibleRun(c: Config, w: World, steps: seq<Step>)
    decreases |steps|
  {
    steps == [] || (Possible(c, w, steps[0]) && PossibleRun(c, Next(c, w, steps[0]), steps[1..]))
  }

  ghost predicate Reachable(c: Config, w: World)
  {
    exists opks, next, steps ::
      && next > c.spk
      && PossibleRun(c, Initial(opks, next), steps)
      && w == Run(c, Initial(opks, next), steps)
  }
}
