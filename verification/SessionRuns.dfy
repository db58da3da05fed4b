/** The invariant of both devices and the network together, kept by every step. */
module SessionRuns {
  import opened Basics
  import opened Crypto
  import opened Ratchet
  import opened X3dh
  import opened Session
  import opened SessionInvariant

  /**
   History of a session: its epochs, where the devices stand in them, the tags
   of both logs, which entries of the peer's log each device accepted, and the
   private half of the one-time prekey the bootstrap names, if any. An admin
   without a session stands at 0.
   */
  datatype Trail = Trail(
    epochs: seq<Epoch>, user: nat, admin: nat,
    userTags: seq<Tag>, adminTags: seq<Tag>,
    userTook: seq<nat>, adminTook: seq<nat>,
    opk: Option<nat>)

  /** Epoch 0 is the admin's signed prekey, and its root the X3DH secret of the header `h` with the one-time half `opk`. */
  predicate StartsSession(c: Config, h: Header, opk: Option<nat>, e: seq<Epoch>)
    requires |e| > 0
  {
    && h.identityEd25519 == c.userEd && h.identityX25519 == Pub(c.userX) && h.ephemeralX25519.Pub?
    && h.signedPrekeyId == c.spkId && (h.oneTimePrekeyId == 0 <==> opk.None?)
    && e[0].priv == c.spk
    && e[0].root == Respond(c.adminX, c.spk, h.identityX25519, h.ephemeralX25519, opk)
  }

  /** Under the id of the one-time prekey the admin's table holds that half or, by now, nothing. */
  predicate BootstrapPending(c: Config, opks: map<int, nat>, h: Header, opk: Option<nat>, e: seq<Epoch>)
    requires |e| > 0
  {
    && StartsSession(c, h, opk, e)
    && (h.oneTimePrekeyId in opks && h.oneTimePrekeyId != 0 ==> opk == Some(opks[h.oneTimePrekeyId]))
  }

  /** Only the user's first envelope is a bootstrap. */
  predicate OnlyFirstBootstraps(user: seq<Outgoing>, admin: seq<Outgoing>)
  {
    && user != []
    && (forall i :: 0 <= i < |user| ==> (user[i].env.bootstrap.Some? <==> i == 0))
    && (forall i :: 0 <= i < |admin| ==> admin[i].env.bootstrap.None?)
  }

  /** One device: where it stands, what it sealed, and what it accepted from the peer's log. */
  predicate Half(e: seq<Epoch>, p: Party, pos: nat, tags: seq<Tag>, first: nat,
                 took: seq<nat>, peerLog: seq<Outgoing>, peerTags: seq<Tag>, peerFirst: nat)
  {
    && p.session.Some? && Stands(e, pos, p.session.value)
    && SentOk(e, p.sent, tags, first) && SentEnd(p.sent, tags, first, pos, p.session.value)
    && |peerLog| == |peerTags|
    && AcceptedOk(p.accepted, took, peerLog, peerTags, peerFirst)
    && AcceptedEnd(took, peerTags, peerFirst, pos, p.session.value.nRecv)
  }

  predicate UserHalf(w: World, t: Trail)
  {
    Half(t.epochs, w.user, t.user, t.userTags, 1, t.userTook, w.admin.sent, t.adminTags, 2)
  }

  predicate AdminHalf(w: World, t: Trail)
  {
    Half(t.epochs, w.admin, t.admin, t.adminTags, 2, t.adminTook, w.user.sent, t.userTags, 1)
  }

  /** The epochs reach exactly to the device that is ahead, and the other is one behind. */
  predicate Spine(c: Config, next: nat, t: Trail)
  {
    && Chained(t.epochs) && t.epochs[|t.epochs| - 1].priv < next
    && (t.user == t.admin + 1 || t.admin == t.user + 1)
    && |t.epochs| == 1 + (if t.user > t.admin then t.user else t.admin)
  }

  predicate AdminWaits(w: World, t: Trail)
  {
    w.admin == NEW_PARTY && t.admin == 0 && t.adminTags == []
  }

  predicate AdminRuns(c: Config, w: World, t: Trail)
    requires w.user.sent != [] && w.user.sent[0].env.bootstrap.Some?
  {
    && AdminHalf(w, t)
    && (w.admin.peerEd.Some? ==> w.admin.peerEd == Some(c.userEd))
    && (var id := w.user.sent[0].env.bootstrap.value.oneTimePrekeyId; id == 0 || id !in w.opks)
  }

  predicate Started(c: Config, w: World, t: Trail)
  {
    && Spine(c, w.next, t)
    && UserHalf(w, t) && w.user.peerEd == Some(c.adminEd)
    && OnlyFirstBootstraps(w.user.sent, w.admin.sent)
    && BootstrapPending(c, w.opks, w.user.sent[0].env.bootstrap.value, t.opk, t.epochs)
    && (if w.admin.session.None? then AdminWaits(w, t) else AdminRuns(c, w, t))
  }

  predicate Inv(c: Config, w: World, t: Trail)
  {
    && w.next > c.spk
    && (if w.user.session.None? then w.user.sent == [] && w.user.accepted == [] && w.admin == NEW_PARTY
        else Started(c, w, t))
  }

  // ---- One device at a time -----------------------------------------------------

  /** Sealing moves the sender along its epoch and only lengthens the log the peer reads. */
  lemma HalfEmits(e: seq<Epoch>, p: Party, pos: nat, tags: seq<Tag>, first: nat,
                  took: seq<nat>, peer: Party, peerTags: seq<Tag>, peerFirst: nat,
                  sender: Bytes, recipient: Bytes, text: string, nonce: nat, crash: Crash) returns (tags': seq<Tag>)
    requires Half(e, p, pos, tags, first, took, peer.sent, peerTags, peerFirst)
    ensures var p' := Emit(p, p.session.value, SealWith(p.session.value, sender, recipient, None, text, nonce), crash);
            && Half(e, p', pos, tags', first, took, peer.sent, peerTags, peerFirst)
            && p'.peerEd == p.peerEd && |p'.sent| >= |p.sent| && p'.sent[..|p.sent|] == p.sent
            && (forall i :: |p.sent| <= i < |p'.sent| ==> p'.sent[i].env.bootstrap.None?)
            && (forall at: nat, its: seq<nat> :: Half(e, peer, at, peerTags, peerFirst, its, p.sent, tags, first)
                  ==> Half(e, peer, at, peerTags, peerFirst, its, p'.sent, tags', first))
  {
    tags' := tags;
    if !crash.BeforeSave? {
      var r := p.session.value;
      var env := SealWith(r, sender, recipient, None, text, nonce);
      var x := Outgoing(env, crash.NoCrash?);
      tags' := tags + [Tag(pos, r.nSend)];
      SealCarries(e, pos, r, sender, recipient, None, text, nonce);
      EmitKeeps(e, pos, r, p.sent, tags, first, env, x.transmitted);
      forall at: nat, its: seq<nat> | Half(e, peer, at, peerTags, peerFirst, its, p.sent, tags, first)
        ensures Half(e, peer, at, peerTags, peerFirst, its, p.sent + [x], tags', first)
      {
        AcceptedOkGrows(peer.accepted, its, p.sent, tags, first, x, Tag(pos, r.nSend));
      }
    }
  }

  lemma HalfExtends(e: seq<Epoch>, x: Epoch, p: Party, pos: nat, tags: seq<Tag>, first: nat,
                    took: seq<nat>, peerLog: seq<Outgoing>, peerTags: seq<Tag>, peerFirst: nat)
    requires Half(e, p, pos, tags, first, took, peerLog, peerTags, peerFirst)
    ensures Half(e + [x], p, pos, tags, first, took, peerLog, peerTags, peerFirst)
  {
    SentOkExtends(e, x, p.sent, tags, first);
  }

  /**
   Receiving entry `i` of the peer's log, told from either side: nothing
   changes, or the next message of the current epoch is taken, or the first of
   the peer's next epoch is, and then the receiver opens an epoch of its own.
   */
  lemma HalfReceives(e: seq<Epoch>, p: Party, pos: nat, tags: seq<Tag>, first: nat,
                     took: seq<nat>, log: seq<Outgoing>, peerTags: seq<Tag>, peerFirst: nat,
                     i: nat, newPriv: nat, crash: Crash)
    returns (e': seq<Epoch>, pos': nat, took': seq<nat>)
    requires Half(e, p, pos, tags, first, took, log, peerTags, peerFirst) && peerFirst <= 2
    requires Chained(e) && e[|e| - 1].priv < newPriv && SentOk(e, log, peerTags, peerFirst)
    requires i < |log| && log[i].transmitted && (peerTags[i].epoch == pos + 1 ==> |e| == pos + 2 && p.session.value.nSend > 0)
    ensures var p' := Absorb(p, p.session.value, log[i].env, newPriv, crash);
            && Chained(e') && Half(e', p', pos', tags, first, took', log, peerTags, peerFirst)
            && p'.sent == p.sent && p'.peerEd == p.peerEd
            && (if pos' == pos then e' == e
                else pos' == pos + 2 && |e| == pos + 2 && |e'| == |e| + 1 && e'[..|e|] == e && e'[|e|].priv == newPriv)
            && (p' != p <==> Expected(pos, p.session.value, peerTags[i]) && !crash.BeforeSave?)
            && took' == (if p' != p then took + [i] else took)
  {
    e', pos', took' := e, pos, took;
    var r, env := p.session.value, log[i].env;
    assert Carries(e, env, peerTags[i]);
    OpensIffExpected(e, pos, r, env, peerTags[i], newPriv);
    if Expected(pos, r, peerTags[i]) && !crash.BeforeSave? {
      var got := Incoming(env, env.ciphertext.plaintext, crash.NoCrash?);
      TakeKeeps(e, p.accepted, took, log, peerTags, peerFirst, pos, r, i, got);
      took' := took + [i];
      if peerTags[i].epoch == pos + 1 {
        RotationExtends(e, pos, r, env, newPriv);
        var r' := AfterRecv(Facing(r, env, newPriv));
        e', pos' := e + [Epoch(newPriv, r'.rootKey, r'.sendChainKey)], pos + 2;
        SentOkExtends(e, e'[|e|], p.sent, tags, first);
        RotatedEnd(p.sent, tags, first, pos, r, r');
      } else {
        SameEpoch(e, pos, r, env, newPriv);
      }
    }
  }

  lemma SameEpoch(e: seq<Epoch>, pos: nat, r: State, env: Env, newPriv: nat)
    requires Stands(e, pos, r) && pos > 1 && env.ratchetPub == Pub(e[pos - 1].priv)
    ensures Facing(r, env, newPriv) == r && Stands(e, pos, AfterRecv(r))
  {
    assert Advance(e[pos - 1].chain, r.nRecv + 1) == KdfChain(Advance(e[pos - 1].chain, r.nRecv), CHAIN_INFO);
  }

  /** After a rotation the log ends one epoch back, with as many messages as `pn` says: at least one was sent. */
  lemma RotatedEnd(log: seq<Outgoing>, tags: seq<Tag>, first: nat, pos: nat, r: State, r': State)
    requires |log| == |tags| && SentEnd(log, tags, first, pos, r) && r.nSend > 0
    requires r'.nSend == 0 && r'.pn == r.nSend
    ensures SentEnd(log, tags, first, pos + 2, r')
  {
  }

  /** A peer that opened epoch `pos + 1` had taken a message of epoch `pos`. */
  lemma SentBeforePeerMoved(e: seq<Epoch>, p: Party, pos: nat, tags: seq<Tag>, first: nat,
                            took: seq<nat>, peer: Party, peerTags: seq<Tag>, peerFirst: nat, peerTook: seq<nat>)
    requires Half(e, p, pos, tags, first, took, peer.sent, peerTags, peerFirst)
    requires Half(e, peer, pos + 1, peerTags, peerFirst, peerTook, p.sent, tags, first) && first <= 2
    ensures p.session.value.nSend > 0
  {
    var last := peerTook[|peerTook| - 1];
    assert last < |tags| && tags[last].epoch == pos;
    if last < |tags| - 1 {
      TagsAscend(e, p.sent, tags, first, last, |tags| - 1);
    }
  }
  // ---- Both devices -----------------------------------------------------------

  /** The user that bootstrapped stands in epoch 1, and the admin can still meet it there. */
  lemma FirstContact(c: Config, opks: map<int, nat>, u: Party, text: string, b: Bundle, eph: nat, dh: nat, nonce: nat, out: bool)
    returns (e: seq<Epoch>)
    requires Genuine(c, opks, b) && c.spk < dh && u.sent == [] && u.accepted == []
    ensures var r := BootstrapRatchet(c, b, eph, dh);
            var env := SealWith(r, c.userDev, c.adminDev, Some(HeaderFor(c, b, eph)), text, nonce);
            var u' := u.(session := Some(AfterSend(r)), sent := [] + [Outgoing(env, out)]);
            && Half(e, u', 1, [] + [Tag(1, 0)], 1, [], [], [], 2)
            && |e| == 2 && e[1].priv == dh && Chained(e)
            && BootstrapPending(c, opks, HeaderFor(c, b, eph), OneTimeFor(opks, HeaderFor(c, b, eph)), e)
  {
    var r, h := BootstrapRatchet(c, b, eph, dh), HeaderFor(c, b, eph);
    var env := SealWith(r, c.userDev, c.adminDev, Some(h), text, nonce);
    var opk := OneTimeFor(opks, h);
    e := [Epoch(c.spk, Initiate(c.userX, b.identityX, b.spkPub, OpkPubOf(b), eph), Zero),
          Epoch(dh, r.rootKey, r.sendChainKey)];
    DhAgrees(dh, c.spk, dh);
    assert Linked(e[0], e[1]) && Advance(e[1].chain, 0) == r.sendChainKey;
    SealCarries(e, 1, r, c.userDev, c.adminDev, Some(h), text, nonce);
    EmitKeeps(e, 1, r, [], [], 1, env, out);
    SecretsAgreeIff(c.userX, eph, c.adminX, c.spk, opk, c.adminX, c.spk, opk);
  }

  lemma UserStarts(c: Config, w: World, t: Trail, text: string, b: Bundle, nonce: nat, crash: Crash) returns (t': Trail)
    requires Inv(c, w, t) && Genuine(c, w.opks, b) && w.user.session.None?
    ensures Inv(c, Next(c, w, UserSend(text, b, nonce, crash)), t')
    ensures Next(c, w, UserSend(text, b, nonce, crash)).user.session.Some? ==> t'.userTook == t'.adminTook == []
  {
    hide Carries, Taken, Placed, Stands, SentEnd, AcceptedEnd, SentOk, AcceptedOk, Linked, BootstrapRatchet, AfterSend;
    t' := t;
    if VerifySignedPrekey(b) && !crash.BeforeSave? {
      var u := w.user.(peerEd := Some(b.identityEd));
      var e := FirstContact(c, w.opks, u, text, b, w.next, w.next + 1, nonce, crash.NoCrash?);
      t' := Trail(e, 1, 0, [] + [Tag(1, 0)], [], [], [], OneTimeFor(w.opks, HeaderFor(c, b, w.next)));
    }
  }

  lemma UserContinues(c: Config, w: World, t: Trail, text: string, b: Bundle, nonce: nat, crash: Crash) returns (t': Trail)
    requires Inv(c, w, t) && w.user.session.Some?
    ensures Inv(c, Next(c, w, UserSend(text, b, nonce, crash)), t')
    ensures t'.userTook == t.userTook && t'.adminTook == t.adminTook
  {
    hide Carries, Taken, Placed, Stands, SentEnd, AcceptedEnd, SentOk, AcceptedOk, Linked;
    var tags := HalfEmits(t.epochs, w.user, t.user, t.userTags, 1, t.userTook, w.admin, t.adminTags, 2,
                          c.userDev, c.adminDev, text, nonce, crash);
    t' := t.(userTags := tags);
    var w' := Next(c, w, UserSend(text, b, nonce, crash));
    assert w'.user.sent[0] == w'.user.sent[..|w.user.sent|][0];
    forall i | 0 <= i < |w'.user.sent| ensures w'.user.sent[i].env.bootstrap.Some? <==> i == 0 {
      if i < |w.user.sent| {
        assert w'.user.sent[i] == w'.user.sent[..|w.user.sent|][i];
      }
    }
    if w.admin.session.Some? {
      assert Half(t.epochs, w.admin, t.admin, t.adminTags, 2, t.adminTook, w'.user.sent, tags, 1);
    }
  }

  lemma AdminContinues(c: Config, w: World, t: Trail, text: string, nonce: nat, crash: Crash) returns (t': Trail)
    requires Inv(c, w, t)
    ensures Inv(c, Next(c, w, AdminSend(text, nonce, crash)), t')
    ensures t'.userTook == t.userTook && t'.adminTook == t.adminTook
  {
    hide Carries, Taken, Placed, Stands, SentEnd, AcceptedEnd, SentOk, AcceptedOk, Linked;
    t' := t;
    if w.admin.session.Some? {
      var tags := HalfEmits(t.epochs, w.admin, t.admin, t.adminTags, 2, t.adminTook, w.user, t.userTags, 1,
                            c.adminDev, c.userDev, text, nonce, crash);
      t' := t.(adminTags := tags);
      var w' := Next(c, w, AdminSend(text, nonce, crash));
      assert Half(t.epochs, w.user, t.user, t.userTags, 1, t.userTook, w'.admin.sent, tags, 2);
      forall i | 0 <= i < |w'.admin.sent| ensures w'.admin.sent[i].env.bootstrap.None? {
        if i < |w.admin.sent| {
          assert w'.admin.sent[i] == w'.admin.sent[..|w.admin.sent|][i];
        }
      }
    }
  }

  /** An entry of the peer's log that opens a new epoch finds the receiver one behind, having sent. */
  lemma UserReadyFor(c: Config, w: World, t: Trail, i: nat)
    requires Inv(c, w, t) && w.user.session.Some? && i < |w.admin.sent|
    requires t.adminTags[i].epoch == t.user + 1
    ensures |t.epochs| == t.user + 2 && w.user.session.value.nSend > 0
  {
    TagsBounded(t.epochs, w.admin.sent, t.adminTags, 2, t.admin, w.admin.session.value, i);
    SentBeforePeerMoved(t.epochs, w.user, t.user, t.userTags, 1, t.userTook, w.admin, t.adminTags, 2, t.adminTook);
  }

  lemma AdminReadyFor(c: Config, w: World, t: Trail, i: nat)
    requires Inv(c, w, t) && w.user.session.Some? && w.admin.session.Some? && i < |w.user.sent|
    requires t.userTags[i].epoch == t.admin + 1
    ensures |t.epochs| == t.admin + 2 && w.admin.session.value.nSend > 0
  {
    TagsBounded(t.epochs, w.user.sent, t.userTags, 1, t.user, w.user.session.value, i);
    SentBeforePeerMoved(t.epochs, w.admin, t.admin, t.adminTags, 2, t.adminTook, w.user, t.userTags, 1, t.userTook);
  }

  lemma UserTakes(c: Config, w: World, t: Trail, packet: Packet, crash: Crash) returns (t': Trail)
    requires Inv(c, w, t) && Possible(c, w, ToUser(packet, crash))
    ensures Inv(c, Next(c, w, ToUser(packet, crash)), t')
  {
    hide Carries, Taken, Placed, Stands, SentEnd, AcceptedEnd, SentOk, AcceptedOk, Linked;
    t' := t;
    if w.user.session.Some? && packet.env.bootstrap.None? && Verify(packet, c.adminEd) {
      var i :| 0 <= i < |w.admin.sent| && w.admin.sent[i] == Outgoing(packet.env, true);
      t' := UserTakesEntry(c, w, t, i, crash);
    }
  }

  /** Putting the halves back together after the user moved on. */
  lemma WithUser(c: Config, w: World, t: Trail, u: Party, e: seq<Epoch>, pos: nat, took: seq<nat>)
    requires Inv(c, w, t) && w.user.session.Some? && Chained(e)
    requires Half(e, u, pos, t.userTags, 1, took, w.admin.sent, t.adminTags, 2)
    requires u.sent == w.user.sent && u.peerEd == w.user.peerEd
    requires if pos == t.user then e == t.epochs
             else pos == t.user + 2 && |t.epochs| == t.user + 2 && |e| == |t.epochs| + 1
                  && e[..|t.epochs|] == t.epochs && e[|t.epochs|].priv == w.next && w.admin.session.Some?
    ensures Inv(c, w.(user := u, next := w.next + 1), t.(epochs := e, user := pos, userTook := took))
  {
    hide Carries, Taken, Placed, Stands, SentEnd, AcceptedEnd, SentOk, AcceptedOk, Linked;
    if e != t.epochs {
      assert e == t.epochs + [e[|t.epochs|]];
      HalfExtends(t.epochs, e[|t.epochs|], w.admin, t.admin, t.adminTags, 2, t.adminTook, w.user.sent, t.userTags, 1);
    }
    var t' := t.(epochs := e, user := pos, userTook := took);
    assert Spine(c, w.next + 1, t');
  }

  lemma UserTakesEntry(c: Config, w: World, t: Trail, i: nat, crash: Crash) returns (t': Trail)
    requires Inv(c, w, t) && w.user.session.Some? && i < |w.admin.sent| && w.admin.sent[i].transmitted
    ensures var u' := Absorb(w.user, w.user.session.value, w.admin.sent[i].env, w.next, crash);
            Inv(c, w.(user := u', next := w.next + 1), t')
            && (u' != w.user <==> Expected(t.user, w.user.session.value, t.adminTags[i]) && !crash.BeforeSave?)
            && t'.userTook == (if u' != w.user then t.userTook + [i] else t.userTook)
            && t'.adminTook == t.adminTook
  {
    hide Carries, Taken, Placed, Stands, SentEnd, AcceptedEnd, Linked;
    if t.adminTags[i].epoch == t.user + 1 {
      UserReadyFor(c, w, t, i);
    }
    var e', pos', took' := HalfReceives(t.epochs, w.user, t.user, t.userTags, 1, t.userTook,
                                        w.admin.sent, t.adminTags, 2, i, w.next, crash);
    var u' := Absorb(w.user, w.user.session.value, w.admin.sent[i].env, w.next, crash);
    WithUser(c, w, t, u', e', pos', took');
    t' := t.(epochs := e', user := pos', userTook := took');
  }

  lemma WithAdmin(c: Config, w: World, t: Trail, a: Party, e: seq<Epoch>, pos: nat, took: seq<nat>)
    requires Inv(c, w, t) && w.user.session.Some? && w.admin.session.Some? && Chained(e)
    requires Half(e, a, pos, t.adminTags, 2, took, w.user.sent, t.userTags, 1)
    requires a.sent == w.admin.sent && a.peerEd == w.admin.peerEd
    requires if pos == t.admin then e == t.epochs
             else pos == t.admin + 2 && |t.epochs| == t.admin + 2 && |e| == |t.epochs| + 1
                  && e[..|t.epochs|] == t.epochs && e[|t.epochs|].priv == w.next
    ensures Inv(c, w.(admin := a, next := w.next + 1), t.(epochs := e, admin := pos, adminTook := took))
  {
    hide Carries, Taken, Placed, Stands, SentEnd, AcceptedEnd, SentOk, AcceptedOk, Linked;
    if e != t.epochs {
      assert e == t.epochs + [e[|t.epochs|]];
      HalfExtends(t.epochs, e[|t.epochs|], w.user, t.user, t.userTags, 1, t.userTook, w.admin.sent, t.adminTags, 2);
    }
    var t' := t.(epochs := e, admin := pos, adminTook := took);
    assert Spine(c, w.next + 1, t');
  }

  lemma AdminTakesEntry(c: Config, w: World, t: Trail, i: nat, crash: Crash) returns (t': Trail)
    requires Inv(c, w, t) && w.user.session.Some? && w.admin.session.Some?
    requires i < |w.user.sent| && w.user.sent[i].transmitted
    ensures var a' := Absorb(w.admin, w.admin.session.value, w.user.sent[i].env, w.next, crash);
            Inv(c, w.(admin := a', next := w.next + 1), t')
            && (a' != w.admin <==> Expected(t.admin, w.admin.session.value, t.userTags[i]) && !crash.BeforeSave?)
            && t'.adminTook == (if a' != w.admin then t.adminTook + [i] else t.adminTook)
            && t'.userTook == t.userTook
  {
    hide Carries, Taken, Placed, Stands, SentEnd, AcceptedEnd, Linked;
    if t.userTags[i].epoch == t.admin + 1 {
      AdminReadyFor(c, w, t, i);
    }
    var e', pos', took' := HalfReceives(t.epochs, w.admin, t.admin, t.adminTags, 2, t.adminTook,
                                        w.user.sent, t.userTags, 1, i, w.next, crash);
    var a' := Absorb(w.admin, w.admin.session.value, w.user.sent[i].env, w.next, crash);
    WithAdmin(c, w, t, a', e', pos', took');
    t' := t.(epochs := e', admin := pos', adminTook := took');
  }

  lemma AdminTakes(c: Config, w: World, t: Trail, packet: Packet, crash: Crash) returns (t': Trail)
    requires Inv(c, w, t) && Possible(c, w, ToAdmin(packet, crash)) && packet.env.bootstrap.None?
    ensures Inv(c, Next(c, w, ToAdmin(packet, crash)), t')
  {
    hide Carries, Taken, Placed, Stands, SentEnd, AcceptedEnd, SentOk, AcceptedOk, Linked;
    t' := t;
    if w.admin.session.Some? && w.admin.peerEd.Some? && Verify(packet, c.userEd) {
      var i :| 0 <= i < |w.user.sent| && w.user.sent[i] == Outgoing(packet.env, true);
      t' := AdminTakesEntry(c, w, t, i, crash);
    }
  }

  /** While the admin waits, the user can only stand in epoch 1. */
  lemma AdminFollows(c: Config, w: World, t: Trail, newPriv: nat) returns (e': seq<Epoch>)
    requires Inv(c, w, t) && w.user.session.Some? && w.admin.session.None? && newPriv >= w.next
    requires var h := w.user.sent[0].env.bootstrap.value; h.oneTimePrekeyId == 0 || h.oneTimePrekeyId in w.opks
    ensures var env := w.user.sent[0].env;
            var r1 := AfterRotate(ResponderRatchet(c, w.opks, env.bootstrap.value), env.ratchetPub, newPriv);
            && Open(env, RecvKey(r1)) == Some(env.ciphertext.plaintext)
            && e' == t.epochs + [Epoch(newPriv, r1.rootKey, r1.sendChainKey)]
            && |t.epochs| == 2 && t.user == 1 && Chained(e') && Stands(e', 2, AfterRecv(r1))
            && r1.nSend == 0 && r1.pn == 0 && r1.nRecv == 0 && t.userTags[0] == Tag(1, 0)
  {
    var e, env := t.epochs, w.user.sent[0].env;
    var r0 := ResponderRatchet(c, w.opks, env.bootstrap.value);
    var r1 := AfterRotate(r0, env.ratchetPub, newPriv);
    e' := e + [Epoch(newPriv, r1.rootKey, r1.sendChainKey)];
    assert Placed(w.user.sent, t.userTags, 1, 0) && Carries(e, env, Tag(1, 0)) && Linked(e[0], e[1]);
    RotationMeetsPeer(r0, e[1].priv, newPriv);
    DhAgrees(e[1].priv, c.spk, newPriv);
    DhAgrees(e[1].priv, newPriv, newPriv);
    assert Advance(e'[1].chain, 1) == KdfChain(Advance(e'[1].chain, 0), CHAIN_INFO);
    assert Linked(e'[1], e'[2]);
  }

  /** The admin that answered stands in epoch 2, having taken the first entry of the user's log. */
  lemma FirstAnswer(e: seq<Epoch>, a: Party, log: seq<Outgoing>, tags: seq<Tag>, facing: State, out: bool)
    requires Stands(e, 2, AfterRecv(facing)) && facing.nSend == 0 && facing.pn == 0 && facing.nRecv == 0
    requires a.sent == [] && a.accepted == [] && log != [] && |tags| == |log| && tags[0] == Tag(1, 0)
    requires log[0].transmitted
    ensures var env := log[0].env;
            var got := [] + [Incoming(env, env.ciphertext.plaintext, out)];
            Half(e, a.(session := Some(AfterRecv(facing)), accepted := got), 2, [], 2, [0], log, tags, 1)
  {
  }

  lemma AdminAnswers(c: Config, w: World, t: Trail, crash: Crash) returns (e: seq<Epoch>)
    requires Inv(c, w, t) && w.user.session.Some? && w.admin.session.None? && w.user.sent[0].transmitted
    requires var h := w.user.sent[0].env.bootstrap.value; h.oneTimePrekeyId == 0 || h.oneTimePrekeyId in w.opks
    ensures var env := w.user.sent[0].env;
            var r1 := AfterRotate(ResponderRatchet(c, w.opks, env.bootstrap.value), env.ratchetPub, w.next);
            var got := [] + [Incoming(env, env.ciphertext.plaintext, crash.NoCrash?)];
            && Open(env, RecvKey(r1)) == Some(env.ciphertext.plaintext)
            && t.user == 1 && |t.epochs| == 2 && |e| == 3 && e[..2] == t.epochs && e[2].priv == w.next && Chained(e)
            && Half(e, w.admin.(session := Some(AfterRecv(r1)), accepted := got), 2, [], 2, [0], w.user.sent, t.userTags, 1)
            && Half(e, w.user, 1, t.userTags, 1, t.userTook, [], [], 2)
  {
    e := AdminFollows(c, w, t, w.next);
    hide Carries, Taken, Placed, Linked, Chained;
    var env := w.user.sent[0].env;
    var r1 := AfterRotate(ResponderRatchet(c, w.opks, env.bootstrap.value), env.ratchetPub, w.next);
    FirstAnswer(e, w.admin, w.user.sent, t.userTags, r1, crash.NoCrash?);
    HalfExtends(t.epochs, e[2], w.user, 1, t.userTags, 1, t.userTook, [], [], 2);
  }

  lemma AdminStarts(c: Config, w: World, t: Trail, packet: Packet, crash: Crash) returns (t': Trail)
    requires Inv(c, w, t) && Possible(c, w, ToAdmin(packet, crash)) && packet.env.bootstrap.Some?
    ensures Inv(c, Next(c, w, ToAdmin(packet, crash)), t')
    ensures t'.userTook == t.userTook
    ensures t'.adminTook == (if w.admin.session.None? && Next(c, w, ToAdmin(packet, crash)).admin.session.Some? then [0] else t.adminTook)
  {
    hide Carries, Taken, Placed, Stands, SentEnd, AcceptedEnd, SentOk, AcceptedOk, Linked, AfterRotate, AfterRecv, RecvKey;
    t' := t;
    if Answerable(c, w.opks, packet) {
      var i :| 0 <= i < |w.user.sent| && w.user.sent[i] == Outgoing(packet.env, true);
      assert i == 0;
      if w.admin.session.None? {
        var e := AdminAnswers(c, w, t, crash);
        if !crash.BeforeSave? {
          t' := t.(epochs := e, admin := 2, adminTook := [0]);
          assert e[0] == e[..2][0];
        }
      }
    }
  }

  // ---- Runs -----------------------------------------------------------------

  lemma StepKeeps(c: Config, w: World, t: Trail, step: Step) returns (t': Trail)
    requires Inv(c, w, t) && Possible(c, w, step)
    ensures Inv(c, Next(c, w, step), t')
  {
    match step
    case UserSend(text, b, nonce, crash) =>
      if w.user.session.None? {
        t' := UserStarts(c, w, t, text, b, nonce, crash);
      } else {
        t' := UserContinues(c, w, t, text, b, nonce, crash);
      }
    case AdminSend(text, nonce, crash) => t' := AdminContinues(c, w, t, text, nonce, crash);
    case ToUser(packet, crash) => t' := UserTakes(c, w, t, packet, crash);
    case ToAdmin(packet, crash) =>
      if packet.env.bootstrap.Some? {
        t' := AdminStarts(c, w, t, packet, crash);
      } else {
        t' := AdminTakes(c, w, t, packet, crash);
      }
  }

  lemma {:induction false} RunKeeps(c: Config, w: World, t: Trail, steps: seq<Step>) returns (t': Trail)
    requires Inv(c, w, t) && PossibleRun(c, w, steps)
    ensures Inv(c, Run(c, w, steps), t')
    decreases |steps|
  {
    t' := t;
    if steps != [] {
      t' := StepKeeps(c, w, t, steps[0]);
      t' := RunKeeps(c, Next(c, w, steps[0]), t', steps[1..]);
    }
  }
}
