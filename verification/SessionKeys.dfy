/** Message keys, chain keys and root keys are kept apart, in every state of every run. */
module SessionKeys {
  import opened Basics
  import opened Crypto
  import opened Session
  import opened SessionInvariant
  import opened SessionRuns
  import opened SessionTheorems

  /** `k` is computed from `part`, by any number of the primitives, or is `part` itself. */
  predicate Uses(k: Key, part: Key)
  {
    k == part ||
    match k
    case HkdfLeft(rk, dh) => Uses(rk, part) || Uses(dh, part)
    case HkdfRight(rk, dh) => Uses(rk, part) || Uses(dh, part)
    case Hmac(ck, _) => Uses(ck, part)
    case Secret(ikm) => exists i :: 0 <= i < |ikm| && Uses(ikm[i], part)
    case _ => false
  }

  /** No HMAC of the constant 1 occurs in `k`. */
  predicate NoMessageKeyIn(k: Key)
  {
    match k
    case HkdfLeft(rk, dh) => NoMessageKeyIn(rk) && NoMessageKeyIn(dh)
    case HkdfRight(rk, dh) => NoMessageKeyIn(rk) && NoMessageKeyIn(dh)
    case Hmac(ck, info) => info != 0x01 && NoMessageKeyIn(ck)
    case Secret(ikm) => forall i :: 0 <= i < |ikm| ==> NoMessageKeyIn(ikm[i])
    case _ => true
  }

  lemma {:induction false} ThenNotUsed(k: Key, ck: Key)
    requires NoMessageKeyIn(k)
    ensures !Uses(k, Hmac(ck, 0x01))
  {
    match k
    case HkdfLeft(rk, dh) => ThenNotUsed(rk, ck); ThenNotUsed(dh, ck);
    case HkdfRight(rk, dh) => ThenNotUsed(rk, ck); ThenNotUsed(dh, ck);
    case Hmac(ck', _) => ThenNotUsed(ck', ck);
    case Secret(ikm) =>
      forall i | 0 <= i < |ikm| ensures !Uses(ikm[i], Hmac(ck, 0x01)) {
        ThenNotUsed(ikm[i], ck);
      }
    case _ =>
  }

  lemma {:induction false} AdvanceHasNone(ck: Key, n: nat)
    requires NoMessageKeyIn(ck)
    ensures NoMessageKeyIn(Advance(ck, n))
  {
    if n > 0 {
      AdvanceHasNone(ck, n - 1);
    }
  }

  lemma {:induction false} EpochsHaveNone(c: Config, h: Header, opk: Option<nat>, e: seq<Epoch>, i: nat)
    requires Chained(e) && StartsSession(c, h, opk, e) && i < |e|
    ensures NoMessageKeyIn(e[i].root) && (i > 0 ==> NoMessageKeyIn(e[i].chain))
  {
    if i > 0 {
      EpochsHaveNone(c, h, opk, e, i - 1);
      assert Linked(e[i - 1], e[i]);
    }
  }

  /** The keys a device has in its database. */
  function StoredKeys(p: Party): set<Key>
  {
    if p.session.None? then {}
    else {p.session.value.rootKey, p.session.value.sendChainKey, p.session.value.recvChainKey}
  }

  lemma StandsHasNone(c: Config, h: Header, opk: Option<nat>, e: seq<Epoch>, pos: nat, p: Party, k: Key)
    requires Chained(e) && StartsSession(c, h, opk, e) && p.session.Some? && Stands(e, pos, p.session.value)
    requires k in StoredKeys(p)
    ensures NoMessageKeyIn(k)
  {
    var r := p.session.value;
    EpochsHaveNone(c, h, opk, e, pos);
    EpochsHaveNone(c, h, opk, e, pos - 1);
    AdvanceHasNone(e[pos].chain, r.nSend);
    if pos > 1 {
      AdvanceHasNone(e[pos - 1].chain, r.nRecv);
    }
  }

  lemma StoredHasNone(c: Config, w: World, k: Key)
    requires Reachable(c, w) && k in StoredKeys(w.user) + StoredKeys(w.admin)
    ensures NoMessageKeyIn(k)
  {
    var t := ReachableInv(c, w);
    var h := w.user.sent[0].env.bootstrap.value;
    if k in StoredKeys(w.user) {
      StandsHasNone(c, h, t.opk, t.epochs, t.user, w.user, k);
    } else {
      StandsHasNone(c, h, t.opk, t.epochs, t.admin, w.admin, k);
    }
  }

  /** `k` is the key of an envelope that either device sealed. */
  predicate Sealed(w: World, k: Key)
  {
    || (exists i :: 0 <= i < |w.user.sent| && w.user.sent[i].env.ciphertext.key == k)
    || (exists i :: 0 <= i < |w.admin.sent| && w.admin.sent[i].env.ciphertext.key == k)
  }

  lemma SealedIsHmac(c: Config, w: World, k: Key)
    requires Reachable(c, w) && Sealed(w, k)
    ensures k.Hmac? && k.info == 0x01 && NoMessageKeyIn(k.ck)
  {
    var t := ReachableInv(c, w);
    var h := w.user.sent[0].env.bootstrap.value;
    var tag: Tag;
    if i :| 0 <= i < |w.user.sent| && w.user.sent[i].env.ciphertext.key == k {
      KeyOfEntry(t.epochs, w.user.sent, t.userTags, 1, i);
      tag := t.userTags[i];
    } else {
      var i :| 0 <= i < |w.admin.sent| && w.admin.sent[i].env.ciphertext.key == k;
      KeyOfEntry(t.epochs, w.admin.sent, t.adminTags, 2, i);
      tag := t.adminTags[i];
    }
    EpochsHaveNone(c, h, t.opk, t.epochs, tag.epoch);
    AdvanceHasNone(t.epochs[tag.epoch].chain, tag.num);
  }

  /**
   For any two reachable states, one of which may come long after the other: a
   key that sealed an envelope in the one is neither stored by a device in the
   other nor used in any key stored there, and the only sealing key computed
   from it is itself. So a message key that gets out opens its own message.
   */
  lemma KeysAreSeparate(c: Config, w: World, w': World, mk: Key, k: Key)
    requires Reachable(c, w) && Reachable(c, w') && Sealed(w, mk)
    ensures k in StoredKeys(w'.user) + StoredKeys(w'.admin) ==> !Uses(k, mk)
    ensures Sealed(w', k) ==> (Uses(k, mk) <==> k == mk)
    ensures forall info: byte :: Hmac(mk, info) !in StoredKeys(w'.user) + StoredKeys(w'.admin) && !Sealed(w', Hmac(mk, info))
  {
    hide Reachable;
    SealedIsHmac(c, w, mk);
    if k in StoredKeys(w'.user) + StoredKeys(w'.admin) {
      StoredHasNone(c, w', k);
      ThenNotUsed(k, mk.ck);
    }
    if Sealed(w', k) {
      SealedIsHmac(c, w', k);
      ThenNotUsed(k.ck, mk.ck);
    }
    forall info: byte
      ensures Hmac(mk, info) !in StoredKeys(w'.user) + StoredKeys(w'.admin) && !Sealed(w', Hmac(mk, info))
    {
      if Hmac(mk, info) in StoredKeys(w'.user) + StoredKeys(w'.admin) {
        StoredHasNone(c, w', Hmac(mk, info));
      }
      if Sealed(w', Hmac(mk, info)) {
        SealedIsHmac(c, w', Hmac(mk, info));
      }
    }
  }
}
