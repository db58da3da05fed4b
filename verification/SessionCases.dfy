/** Short runs that show the exceptions of the session are real, and how a new bootstrap ends them. */
module SessionCases {
  import opened Basics
  import opened Crypto
  import opened Ratchet
  import opened X3dh
  import opened Session
  import opened SessionInvariant
  import opened SessionRuns
  import opened SessionTheorems
  import opened SessionLoss

  /** The admin's own bundle with the one-time prekey `id`. */
  function OpkBundle(c: Config, id: int, half: nat): Bundle
  {
    PlainBundle(c).(opk := Some((id, Pub(half))))
  }

  function Start(c: Config, id: int, half: nat): World { Initial(map[id := half], c.spk + 1) }

  lemma StartIsReachable(c: Config, id: int, half: nat)
    ensures Reachable(c, Start(c, id, half))
  {
    var w := Start(c, id, half);
    assert PossibleRun(c, w, []) && Run(c, w, []) == w;
  }

  /** The user bootstraps with `b`, and the admin is handed the bootstrap but crashes as told. */
  lemma Contact(c: Config, id: int, half: nat, b: Bundle, crash: Crash) returns (w: World)
    requires id != 0 && (b == OpkBundle(c, id, half) || b == PlainBundle(c))
    ensures Reachable(c, w)
    ensures w.user.session.Some? && |w.user.sent| == 1 && w.user.sent[0].transmitted
    ensures w.user.sent[0].env.bootstrap.Some? && FirstHeader(w).oneTimePrekeyId == OpkIdOf(b)
    ensures w.admin.session.Some? <==> !crash.BeforeSave?
    ensures w.admin.peerEd.Some? <==> !crash.BeforeSave? && !crash.AfterSave?
    ensures w.admin.sent == []
    ensures b.opk.Some? ==> id !in w.opks
  {
    hide AfterRotate, Initiate, Respond, Carries, Taken, Placed, Stands, SentEnd, AcceptedEnd, SentOk, AcceptedOk, Linked;
    hide Reachable;
    var start := Start(c, id, half);
    var send := UserSend("", b, 0, NoCrash);
    var w0 := Next(c, start, send);
    var t0 := StepKeeps(c, start, Trail([], 0, 0, [], [], [], [], None), send);
    var env := w0.user.sent[0].env;
    var hand := ToAdmin(Signed(env, c.userEd), crash);
    assert OnTheWire(env, w0.user.sent) by { assert w0.user.sent[0] == Outgoing(env, true); }
    var e := AdminAnswers(c, w0, t0, crash);
    w := Next(c, w0, hand);
    StartIsReachable(c, id, half);
    NextIsReachable(c, start, send);
    NextIsReachable(c, w0, hand);
  }

  /** The state before first contact is lost that an admin's crash leaves: the prekey is consumed, nothing is saved. */
  lemma ConsumedWithoutAnswer(c: Config, id: int, half: nat)
    requires id != 0
    ensures exists w :: && Reachable(c, w) && w.user.session.Some? && w.admin.session.None?
                        && w.user.sent != [] && w.user.sent[0].env.bootstrap.Some? && w.user.sent[0].transmitted
                        && !Contactable(w)
  {
    hide Reachable;
    var w := Contact(c, id, half, OpkBundle(c, id, half), BeforeSave);
    assert !Contactable(w);
  }

  /** The same by a crash of the user: the session is saved, and the bootstrap never leaves. */
  lemma SavedWithoutSending(c: Config, id: int, half: nat)
    ensures exists w :: && Reachable(c, w) && w.user.session.Some? && w.admin.session.None?
                        && w.user.sent != [] && w.user.sent[0].env.bootstrap.Some? && !Contactable(w)
  {
    var start, send := Start(c, id, half), UserSend("", PlainBundle(c), 0, AfterSave);
    var w := Next(c, start, send);
    StartIsReachable(c, id, half);
    NextIsReachable(c, start, send);
    hide Reachable;
    assert !Contactable(w);
  }

  /** A crash right after the first save leaves a session without the user's identity, and the admin deaf. */
  lemma UncachedIdentityOccurs(c: Config, id: int, half: nat)
    requires id != 0
    ensures exists w :: && Reachable(c, w) && w.user.session.Some? && w.admin.session.Some? && w.admin.peerEd.None?
                        && w.user.sent != [] && w.user.sent[0].env.bootstrap.Some? && FirstHeader(w).oneTimePrekeyId == id
                        && !CanHear(w)
  {
    hide Reachable;
    var w := Contact(c, id, half, OpkBundle(c, id, half), AfterSave);
    assert !CanHear(w);
  }

  /** A bootstrap without a one-time prekey, handed over a second time, does replace a session. */
  lemma ReplayOverwrites(c: Config, id: int, half: nat)
    requires id != 0
    ensures exists w :: && Reachable(c, w) && w.admin.session.Some? && w.user.sent != []
                        && AdminReceives(c, w.admin, w.opks, Signed(w.user.sent[0].env, c.userEd), w.next, NoCrash).0.session
                             != w.admin.session
  {
    hide Reachable, AdminReceives;
    var w := Contact(c, id, half, PlainBundle(c), NoCrash);
    ReplayedBootstrapIff(c, w);
  }

  /** Two lost messages, one each way, are enough to deafen an admin that has everything it needs. */
  lemma LossesDeafen(c: Config, id: int, half: nat)
    requires id != 0
    ensures exists w :: && Reachable(c, w) && w.user.session.Some? && w.admin.session.Some? && w.admin.peerEd.Some?
                        && w.user.sent != [] && w.user.sent[0].env.bootstrap.Some? && FirstHeader(w).oneTimePrekeyId == id
                        && !CanHear(w)
  {
    var w0 := Contact(c, id, half, OpkBundle(c, id, half), NoCrash);
    var a, b := UserSend("", PlainBundle(c), 0, AfterSave), AdminSend("", 0, AfterSave);
    var w := Next(c, Next(c, w0, a), b);
    assert Reachable(c, w) by {
      NextIsReachable(c, w0, a);
      NextIsReachable(c, Next(c, w0, a), b);
    }
    var t := ReachableInv(c, w0);
    hide Reachable, Inv, Possible, BootstrapRatchet, AfterRotate;
    SealsFromZero(c, w0, t);
    if w0.user.session.value.dhSendPub == w0.admin.session.value.dhRecvPub {
      CountBehind(c, w0, t);
    }
    assert !CanHear(w);
  }

  // ---- Starting over ------------------------------------------------------------

  /** deleteRatchet: sendText does this when the active admin device changes, so the next send bootstraps. */
  function Forget(p: Party): Party { p.(session := None) }

  /** After both calls the devices take each other's next message, whatever it says. */
  ghost predicate InTouch(c: Config, u: Party, a: Party)
  {
    && u.session.Some? && a.session.Some?
    && (forall text, nonce, newPriv :: Takes(a, SealWith(u.session.value, c.userDev, c.adminDev, None, text, nonce), c.userEd, newPriv))
    && (forall text, nonce, newPriv :: Takes(u, SealWith(a.session.value, c.adminDev, c.userDev, None, text, nonce), c.adminEd, newPriv))
  }

  predicate Takes(p: Party, env: Env, signer: nat, newPriv: nat)
  {
    SteadyState(p, Signed(env, signer), newPriv, NoCrash).accepted
      == p.accepted + [Incoming(env, env.ciphertext.plaintext, true)]
  }

  /** The new pair of ratchets: the admin holds the first message's key, and both hold what the next one needs. */
  lemma FreshSession(c: Config, opks: map<int, nat>, b: Bundle, eph: nat, dh: nat, newPriv: nat)
    requires Genuine(c, opks, b) && newPriv != c.spk
    ensures var r := BootstrapRatchet(c, b, eph, dh);
            var facing := AfterRotate(ResponderRatchet(c, opks, HeaderFor(c, b, eph)), Pub(dh), newPriv);
            && RecvKey(facing) == SendKey(r) && r.dhSendPub == facing.dhRecvPub == Pub(dh)
            && AfterRecv(facing).recvChainKey == AfterSend(r).sendChainKey
            && facing.dhSendPub == Pub(newPriv) && r.dhRecvPub == Pub(c.spk)
            && (forall priv: nat :: AfterRotate(AfterSend(r), Pub(newPriv), priv).recvChainKey == facing.sendChainKey)
  {
    var opk := OneTimeFor(opks, HeaderFor(c, b, eph));
    BootstrapMeets(c.userX, eph, c.adminX, c.spk, opk, dh, newPriv);
    DhAgrees(dh, newPriv, dh);
  }

  /**
   From any state of either device, deaf ones included: forgetting the session
   and bootstrapping again with a genuine bundle gets the message through and
   puts both devices back in touch.
   */
  lemma StartingOverHeals(c: Config, u: Party, a: Party, opks: map<int, nat>, text: string, b: Bundle,
                          eph: nat, dh: nat, nonce: nat, newPriv: nat)
    requires Genuine(c, opks, b) && VerifySignedPrekey(b) && newPriv != c.spk
    ensures var u' := UserSends(c, Forget(u), text, b, eph, dh, nonce, NoCrash);
            && |u'.sent| == |u.sent| + 1 && u'.sent[|u.sent|].transmitted
            && (var env := u'.sent[|u.sent|].env;
                var a' := AdminReceives(c, a, opks, Signed(env, c.userEd), newPriv, NoCrash).0;
                a'.accepted == a.accepted + [Incoming(env, text, true)] && InTouch(c, u', a'))
  {
    FreshSession(c, opks, b, eph, dh, newPriv);
    hide Initiate, Respond, AfterRotate, ResponderRatchet, BootstrapRatchet;
    var u' := UserSends(c, Forget(u), text, b, eph, dh, nonce, NoCrash);
    var env := u'.sent[|u.sent|].env;
    var a' := AdminReceives(c, a, opks, Signed(env, c.userEd), newPriv, NoCrash).0;
    assert a'.accepted == a.accepted + [Incoming(env, text, true)];
    assert InTouch(c, u', a');
  }

  // ---- Another identity under the same device ---------------------------------------

  /** The bootstrap another identity seals for the admin, under the user's device id. */
  function ForeignBootstrap(c: Config, ed: nat, x: nat, text: string, b: Bundle, eph: nat, dh: nat, nonce: nat): Packet
  {
    var c' := c.(userEd := ed, userX := x);
    var r := BootstrapRatchet(c', b, eph, dh);
    Signed(SealWith(r, c.userDev, c.adminDev, Some(HeaderFor(c', b, eph)), text, nonce), ed)
  }

  /**
   A bootstrap is verified against the identity in its own header. So in every
   state of the admin, a well-formed one of any identity is accepted and
   replaces the session and the cached identity; after that the admin discards
   every type-0 envelope that another identity signed.
   */
  lemma OtherIdentityReplaces(c: Config, ed: nat, x: nat, a: Party, opks: map<int, nat>, text: string, b: Bundle,
                              eph: nat, dh: nat, nonce: nat, newPriv: nat)
    requires Genuine(c, opks, b) && newPriv != c.spk
    ensures var packet := ForeignBootstrap(c, ed, x, text, b, eph, dh, nonce);
            var a' := AdminReceives(c, a, opks, packet, newPriv, NoCrash).0;
            && a'.accepted == a.accepted + [Incoming(packet.env, text, true)]
            && a'.session.Some? && a'.session.value.dhSendPub == Pub(newPriv) && a'.peerEd == Some(ed)
            && (forall later: Packet, priv: nat, crash: Crash ::
                  later.signature.signer != ed ==> SteadyState(a', later, priv, crash) == a')
  {
    FreshSession(c.(userEd := ed, userX := x), opks, b, eph, dh, newPriv);
    hide Initiate, Respond, AfterRotate, BootstrapRatchet;
    var packet := ForeignBootstrap(c, ed, x, text, b, eph, dh, nonce);
    var h := packet.env.bootstrap.value;
    assert ResponderRatchet(c, opks, h) == ResponderRatchet(c.(userEd := ed, userX := x), opks, h);
  }
}
