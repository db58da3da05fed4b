/** What goes into an envelope and what comes out of it: texts, addresses, prekeys and identities. */
module SessionContent {
  import opened Basics
  import opened Crypto
  import opened Ratchet
  import opened X3dh
  import opened Session
  import opened SessionTheorems
  import opened SessionFifo
  import EnvelopeCodec

  // ---- One call -----------------------------------------------------------------

  /** The identity of the bundle signed the very prekey the bundle offers. */
  predicate PrekeySigned(b: Bundle)
  {
    b.spkSigner == b.identityEd && b.spkSigned == b.spkPub
  }

  /**
   Without a session, and whatever bundle the server hands out, the user app
   does something if and only if the prekey is signed; then it stores a session
   with that prekey, caches that identity, and lets one bootstrap out.
   */
  lemma UserStartsIff(c: Config, u: Party, text: string, b: Bundle, eph: nat, dh: nat, nonce: nat)
    requires u.session.None?
    ensures var u' := UserSends(c, u, text, b, eph, dh, nonce, NoCrash);
            && (u' != u <==> PrekeySigned(b))
            && (PrekeySigned(b) ==>
                  && u'.session.Some? && u'.session.value.dhRecvPub == b.spkPub && u'.peerEd == Some(b.identityEd)
                  && |u'.sent| == |u.sent| + 1 && u'.sent[..|u.sent|] == u.sent
                  && u'.sent[|u.sent|].transmitted && u'.sent[|u.sent|].env.bootstrap == Some(HeaderFor(c, b, eph)))
  {
  }

  /** An envelope as one device seals it: from whom, to whom, what, and under which place in the chain. */
  predicate SealedAs(o: Outgoing, from: Bytes, to: Bytes, text: string, nonce: nat, r: State)
  {
    var e := o.env;
    && (e.senderDevId, e.recipientDevId, e.nonce) == (from, to, nonce)
    && (e.ratchetPub, e.msgNumber, e.prevChainLen) == (r.dhSendPub, r.nSend, r.pn)
    && e.ciphertext == Box(Hmac(r.sendChainKey, 0x01), nonce, from + (to + EnvelopeCodec.Varint(r.nSend)), text)
  }

  /** Within a session both apps seal the text that was typed, to the peer's device, as the next of the chain. */
  lemma TypedIsSealed(c: Config, p: Party, text: string, b: Bundle, eph: nat, dh: nat, nonce: nat)
    requires p.session.Some?
    ensures var r := p.session.value;
            var u', a' := UserSends(c, p, text, b, eph, dh, nonce, NoCrash), AdminSends(c, p, text, nonce, NoCrash);
            var n := |p.sent|;
            && |u'.sent| == |a'.sent| == n + 1 && u'.sent[..n] == a'.sent[..n] == p.sent
            && u'.sent[n].transmitted && a'.sent[n].transmitted
            && u'.sent[n].env.bootstrap.None? && a'.sent[n].env.bootstrap.None?
            && SealedAs(u'.sent[n], c.userDev, c.adminDev, text, nonce, r)
            && SealedAs(a'.sent[n], c.adminDev, c.userDev, text, nonce, r)
  {
  }

  /** A device without a session sends no reply. */
  lemma NoReplyWithoutSession(c: Config, a: Party, text: string, nonce: nat, crash: Crash)
    requires a.session.None?
    ensures AdminSends(c, a, text, nonce, crash) == a
  {
  }

  /** An envelope opens exactly under its own key and nonce, for the sender, recipient and number it was sealed for. */
  lemma OpensIffUntouched(env: Env, key: Key)
    ensures var aad := env.senderDevId + (env.recipientDevId + EnvelopeCodec.Varint(env.msgNumber));
            Open(env, key).Some? <==>
              env.ciphertext.key == key && env.ciphertext.nonce == env.nonce && env.ciphertext.aad == aad
    ensures Open(env, key).Some? ==> Open(env, key).value == env.ciphertext.plaintext
  {
  }

  /**
   A type-0 envelope is taken exactly when there is a session, the cached
   identity of the peer signed it, and it opens: under the current receive chain
   if it carries the current DH key, or else under the chain of a rotation.
   */
  lemma TakesIff(c: Config, opks: map<int, nat>, p: Party, packet: Packet, newPriv: nat)
    requires packet.env.bootstrap.None?
    ensures var p', r := UserReceives(p, packet, newPriv, NoCrash), p.session;
            var chain := if r.None? then Zero
                         else if packet.env.ratchetPub == r.value.dhRecvPub then r.value.recvChainKey
                         else HkdfRight(r.value.rootKey, X25519(r.value.dhSendPriv, packet.env.ratchetPub));
            && (p' != p <==> && r.Some? && p.peerEd.Some? && packet.signature == Signature(p.peerEd.value, packet.env)
                             && Open(packet.env, Hmac(chain, 0x01)).Some?)
            && (p' != p ==> p'.accepted == p.accepted + [Incoming(packet.env, packet.env.ciphertext.plaintext, true)])
            && AdminReceives(c, p, opks, packet, newPriv, NoCrash) == (p', opks)
  {
  }

  /** The user app takes no bootstrap. */
  lemma UserOnlyInitiates(u: Party, packet: Packet, newPriv: nat, crash: Crash)
    requires packet.env.bootstrap.Some?
    ensures UserReceives(u, packet, newPriv, crash) == u
  {
  }

  // ---- Bootstraps at the admin --------------------------------------------------

  /** The admin answers a bootstrap exactly when its own header's identity signed it, its prekeys are there, and it opens. */
  lemma AnswersIff(c: Config, a: Party, opks: map<int, nat>, packet: Packet, newPriv: nat)
    requires packet.env.bootstrap.Some?
    ensures var h := packet.env.bootstrap.value;
            var taken := && packet.signature == Signature(h.identityEd25519, packet.env)
                         && h.signedPrekeyId == c.spkId
                         && (h.oneTimePrekeyId != 0 ==> h.oneTimePrekeyId in opks);
            var secret := Respond(c.adminX, c.spk, h.identityX25519, h.ephemeralX25519, OneTimeFor(opks, h));
            var chain := HkdfRight(secret, X25519(c.spk, packet.env.ratchetPub));
            var opens := Open(packet.env, Hmac(chain, 0x01)).Some?;
            var (a', opks') := AdminReceives(c, a, opks, packet, newPriv, NoCrash);
            && (a' != a <==> taken && opens)
            && (a' != a ==> && a'.accepted == a.accepted + [Incoming(packet.env, packet.env.ciphertext.plaintext, true)]
                            && a'.peerEd == Some(h.identityEd25519))
            && opks' == (if taken && h.oneTimePrekeyId != 0 then opks - {h.oneTimePrekeyId} else opks)
  {
  }

  /** What _bootstrapSessionTo and sendText seal, but with another X25519 identity and ephemeral key in the header. */
  function Misnamed(c: Config, b: Bundle, eph: nat, dh: nat, text: string, nonce: nat, x: nat, eph': nat): Packet
  {
    var h := HeaderFor(c, b, eph).(identityX25519 := Pub(x), ephemeralX25519 := Pub(eph'));
    Signed(SealWith(BootstrapRatchet(c, b, eph, dh), c.userDev, c.adminDev, Some(h), text, nonce), c.userEd)
  }

  /** A bootstrap is accepted if and only if its header names the X25519 identity and ephemeral key it was made with. */
  lemma NamedKeysIff(c: Config, a: Party, opks: map<int, nat>, b: Bundle, eph: nat, dh: nat, text: string, nonce: nat,
                     x: nat, eph': nat, newPriv: nat)
    requires Genuine(c, opks, b)
    ensures var packet := Misnamed(c, b, eph, dh, text, nonce, x, eph');
            AdminReceives(c, a, opks, packet, newPriv, NoCrash).0 != a <==> x == c.userX && eph' == eph
  {
    var packet := Misnamed(c, b, eph, dh, text, nonce, x, eph');
    var h := packet.env.bootstrap.value;
    var opk := OneTimeFor(opks, h);
    InitiatorIsBoundIff(c.userX, eph, c.adminX, c.spk, opk, x, eph', opk);
    DhAgrees(dh, c.spk, dh);
    AnswersIff(c, a, opks, packet, newPriv);
    hide Initiate, Respond, AdminReceives;
  }

  // ---- Runs: sessions and texts ---------------------------------------------------

  /** In any run, with any bundles, a user that holds a session started it at some step against a signed prekey. */
  lemma {:induction false} SessionsAreSigned(c: Config, w: World, steps: seq<Step>) returns (i: nat)
    requires w.user.session.None? && Run(c, w, steps).user.session.Some?
    ensures i < |steps| && steps[i].UserSend? && PrekeySigned(steps[i].bundle)
    ensures Run(c, w, steps[..i]).user.session.None?
    ensures var u' := Run(c, w, steps[..i + 1]).user;
            && u'.session.Some? && u'.session.value.dhRecvPub == steps[i].bundle.spkPub
            && u'.peerEd == Some(steps[i].bundle.identityEd)
    decreases |steps|
  {
    var w' := Next(c, w, steps[0]);
    if w'.user.session.Some? {
      i := 0;
      assert steps[..1][1..] == [] && Run(c, w', []) == w';
    } else {
      i := SessionsAreSigned(c, w', steps[1..]);
      i := i + 1;
      assert steps[..i][1..] == steps[1..][..i - 1] && steps[..i + 1][1..] == steps[1..][..i];
      hide Next;
    }
  }

  function Texts(log: seq<Outgoing>): seq<string>
  {
    seq(|log|, i requires 0 <= i < |log| => log[i].env.ciphertext.plaintext)
  }

  /** The text a call of the user app commits to, if any: it is saved before the crash. */
  function UserText(w: World, step: Step): seq<string>
  {
    if step.UserSend? && !step.crash.BeforeSave? && (w.user.session.Some? || PrekeySigned(step.bundle))
    then [step.text] else []
  }

  function AdminText(w: World, step: Step): seq<string>
  {
    if step.AdminSend? && !step.crash.BeforeSave? && w.admin.session.Some? then [step.text] else []
  }

  function TypedByUser(c: Config, w: World, steps: seq<Step>): seq<string>
    decreases |steps|
  {
    if steps == [] then [] else UserText(w, steps[0]) + TypedByUser(c, Next(c, w, steps[0]), steps[1..])
  }

  function TypedByAdmin(c: Config, w: World, steps: seq<Step>): seq<string>
    decreases |steps|
  {
    if steps == [] then [] else AdminText(w, steps[0]) + TypedByAdmin(c, Next(c, w, steps[0]), steps[1..])
  }

  lemma StepTexts(c: Config, w: World, step: Step)
    ensures Texts(Next(c, w, step).user.sent) == Texts(w.user.sent) + UserText(w, step)
    ensures Texts(Next(c, w, step).admin.sent) == Texts(w.admin.sent) + AdminText(w, step)
  {
    hide AfterRotate, AfterRecv, Facing, Open, Initiate, Respond;
  }

  lemma {:induction false} RunTexts(c: Config, w: World, steps: seq<Step>)
    ensures Texts(Run(c, w, steps).user.sent) == Texts(w.user.sent) + TypedByUser(c, w, steps)
    ensures Texts(Run(c, w, steps).admin.sent) == Texts(w.admin.sent) + TypedByAdmin(c, w, steps)
    decreases |steps|
  {
    hide Next, Texts, UserText, AdminText;
    if steps != [] {
      StepTexts(c, w, steps[0]);
      RunTexts(c, Next(c, w, steps[0]), steps[1..]);
    }
  }

  /** `acc` shows texts of `typed`, in the order they were typed, each at most once. */
  ghost predicate ShowsSome(acc: seq<Incoming>, typed: seq<string>)
  {
    exists idx: seq<nat> ::
      && |idx| == |acc|
      && (forall j :: 0 <= j < |acc| ==> idx[j] < |typed| && acc[j].plaintext == typed[idx[j]])
      && (forall j, k :: 0 <= j < k < |acc| ==> idx[j] < idx[k])
  }

  /** On any network, what each device accepted was typed at the other, in that order. */
  lemma AcceptedWasTyped(c: Config, opks: map<int, nat>, next: nat, steps: seq<Step>)
    requires next > c.spk && PossibleRun(c, Initial(opks, next), steps)
    ensures var w0 := Initial(opks, next);
            && ShowsSome(Run(c, w0, steps).admin.accepted, TypedByUser(c, w0, steps))
            && ShowsSome(Run(c, w0, steps).user.accepted, TypedByAdmin(c, w0, steps))
  {
    var w0 := Initial(opks, next);
    var w := Run(c, w0, steps);
    assert Reachable(c, w);
    RunTexts(c, w0, steps);
    assert Texts(w.user.sent) == TypedByUser(c, w0, steps) && Texts(w.admin.sent) == TypedByAdmin(c, w0, steps);
    hide Reachable, Run, PossibleRun, TypedByUser, TypedByAdmin;
    AcceptedIsSelection(c, w);
    SelectedIsShown(w.admin.accepted, w.user.sent);
    SelectedIsShown(w.user.accepted, w.admin.sent);
  }

  lemma SelectedIsShown(acc: seq<Incoming>, log: seq<Outgoing>)
    requires exists idx :: Selects(idx, acc, log)
    ensures ShowsSome(acc, Texts(log))
  {
    var idx :| Selects(idx, acc, log);
    forall j | 0 <= j < |acc| ensures idx[j] < |Texts(log)| && acc[j].plaintext == Texts(log)[idx[j]] { }
  }

  // ---- Lossless channels, from keyboard to screen -----------------------------------

  /** The text a turn of the user commits to, if any. */
  function UserTurn(s: Channel, turn: Turn): seq<string>
  {
    match turn
    case UserTypes(text, b, _) => if s.w.user.session.Some? || PrekeySigned(b) then [text] else []
    case _ => []
  }

  function AdminTurn(s: Channel, turn: Turn): seq<string>
  {
    match turn
    case AdminReplies(text, _) => if s.w.admin.session.Some? then [text] else []
    case _ => []
  }

  function TurnsOfUser(c: Config, s: Channel, turns: seq<Turn>): seq<string>
    decreases |turns|
  {
    if turns == [] then [] else UserTurn(s, turns[0]) + TurnsOfUser(c, Play(c, s, turns[0]), turns[1..])
  }

  function TurnsOfAdmin(c: Config, s: Channel, turns: seq<Turn>): seq<string>
    decreases |turns|
  {
    if turns == [] then [] else AdminTurn(s, turns[0]) + TurnsOfAdmin(c, Play(c, s, turns[0]), turns[1..])
  }

  lemma TurnTexts(c: Config, s: Channel, turn: Turn)
    ensures Texts(Play(c, s, turn).w.user.sent) == Texts(s.w.user.sent) + UserTurn(s, turn)
    ensures Texts(Play(c, s, turn).w.admin.sent) == Texts(s.w.admin.sent) + AdminTurn(s, turn)
  {
    hide Next, Texts;
    match turn
    case UserTypes(text, b, nonce) => StepTexts(c, s.w, UserSend(text, b, nonce, NoCrash));
    case AdminReplies(text, nonce) => StepTexts(c, s.w, AdminSend(text, nonce, NoCrash));
    case UserGets =>
      if s.toUser < |s.w.admin.sent| {
        StepTexts(c, s.w, ToUser(Signed(s.w.admin.sent[s.toUser].env, c.adminEd), NoCrash));
      }
    case AdminGets =>
      if s.toAdmin < |s.w.user.sent| {
        StepTexts(c, s.w, ToAdmin(Signed(s.w.user.sent[s.toAdmin].env, c.userEd), NoCrash));
      }
  }

  lemma {:induction false} PlayTexts(c: Config, s: Channel, turns: seq<Turn>)
    ensures Texts(PlayAll(c, s, turns).w.user.sent) == Texts(s.w.user.sent) + TurnsOfUser(c, s, turns)
    ensures Texts(PlayAll(c, s, turns).w.admin.sent) == Texts(s.w.admin.sent) + TurnsOfAdmin(c, s, turns)
    decreases |turns|
  {
    hide Play, Texts, UserTurn, AdminTurn;
    if turns != [] {
      TurnTexts(c, s, turns[0]);
      PlayTexts(c, Play(c, s, turns[0]), turns[1..]);
    }
  }

  /** The first `n` texts of `typed`, all of them shown, and nothing else. */
  predicate Shows(acc: seq<Incoming>, typed: seq<string>, n: nat)
  {
    && |acc| == n <= |typed|
    && (forall j :: 0 <= j < n ==> acc[j].plaintext == typed[j] && acc[j].inserted)
  }

  /**
   Over lossless in-order channels, and through any number of DH rotations,
   each device shows exactly the first texts typed at the other, as many as it
   was handed.
   */
  lemma TypedArrives(c: Config, opks: map<int, nat>, next: nat, turns: seq<Turn>)
    requires next > c.spk && FairRun(c, Channel(Initial(opks, next), 0, 0), turns)
    ensures var s0 := Channel(Initial(opks, next), 0, 0);
            var s := PlayAll(c, s0, turns);
            && Shows(s.w.admin.accepted, TurnsOfUser(c, s0, turns), s.toAdmin)
            && Shows(s.w.user.accepted, TurnsOfAdmin(c, s0, turns), s.toUser)
  {
    var s0 := Channel(Initial(opks, next), 0, 0);
    var s := PlayAll(c, s0, turns);
    hide PlayAll, FairRun, TurnsOfUser, TurnsOfAdmin, Texts;
    EverythingDeliveredOpens(c, opks, next, turns);
    PlayTexts(c, s0, turns);
    StartsEmpty(opks, next);
    MirroredIsShown(s.w.admin.accepted, s.w.user.sent, s.toAdmin);
    MirroredIsShown(s.w.user.accepted, s.w.admin.sent, s.toUser);
  }

  lemma StartsEmpty(opks: map<int, nat>, next: nat)
    ensures Texts(Initial(opks, next).user.sent) == Texts(Initial(opks, next).admin.sent) == []
  {
  }

  lemma MirroredIsShown(acc: seq<Incoming>, log: seq<Outgoing>, n: nat)
    requires Mirrors(acc, log, n)
    ensures Shows(acc, Texts(log), n)
  {
  }

  // ---- Accepted once, and lost by a crash before it is shown ------------------------

  /** No envelope is accepted twice, on either device. */
  lemma AcceptedOnce(c: Config, w: World, j: nat, k: nat)
    requires Reachable(c, w)
    ensures j < k < |w.user.accepted| ==> w.user.accepted[j].env != w.user.accepted[k].env
    ensures j < k < |w.admin.accepted| ==> w.admin.accepted[j].env != w.admin.accepted[k].env
  {
    AcceptedIsSelection(c, w);
    var idx :| Selects(idx, w.admin.accepted, w.user.sent);
    var idx' :| Selects(idx', w.user.accepted, w.admin.sent);
    if j < k < |w.user.accepted| {
      MessageKeysAreUnique(c, w, idx'[j], idx'[k]);
    }
    if j < k < |w.admin.accepted| {
      MessageKeysAreUnique(c, w, idx[j], idx[k]);
    }
  }

  lemma StepGrows(c: Config, w: World, step: Step)
    ensures w.user.accepted <= Next(c, w, step).user.accepted && w.admin.accepted <= Next(c, w, step).admin.accepted
  {
    hide AfterRotate, AfterRecv, Facing, Open, Initiate, Respond;
  }

  lemma {:induction false} RunGrows(c: Config, w: World, steps: seq<Step>)
    ensures w.user.accepted <= Run(c, w, steps).user.accepted && w.admin.accepted <= Run(c, w, steps).admin.accepted
    decreases |steps|
  {
    if steps != [] {
      StepGrows(c, w, steps[0]);
      RunGrows(c, Next(c, w, steps[0]), steps[1..]);
      hide Next;
    }
  }

  /** The text of `env` is in the message table. */
  predicate Shown(p: Party, env: Env)
  {
    exists j :: 0 <= j < |p.accepted| && p.accepted[j].env == env && p.accepted[j].inserted
  }

  /**
   The ratchet is saved before the message is stored. A device that crashes in
   between never shows that message: no later delivery opens it again.
   */
  lemma CrashBeforeInsertLoses(c: Config, w: World, packet: Packet, steps: seq<Step>)
    requires Reachable(c, w) && Possible(c, w, ToUser(packet, AfterSave))
    requires var w' := Next(c, w, ToUser(packet, AfterSave)); w'.user != w.user && PossibleRun(c, w', steps)
    ensures !Shown(Run(c, Next(c, w, ToUser(packet, AfterSave)), steps).user, packet.env)
  {
    var w' := Next(c, w, ToUser(packet, AfterSave));
    var n := |w.user.accepted|;
    assert w'.user.accepted == w.user.accepted + [Incoming(packet.env, packet.env.ciphertext.plaintext, false)];
    NextIsReachable(c, w, ToUser(packet, AfterSave));
    RunIsReachable(c, w', steps);
    RunGrows(c, w', steps);
    hide Reachable, Run, PossibleRun, Next, Possible;
    var z := Run(c, w', steps);
    assert z.user.accepted[n] == w'.user.accepted[n];
    if Shown(z.user, packet.env) {
      var j :| 0 <= j < |z.user.accepted| && z.user.accepted[j].env == packet.env && z.user.accepted[j].inserted;
      AcceptedOnce(c, z, if j < n then j else n, if j < n then n else j);
    }
  }
}
