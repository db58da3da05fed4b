/**
 The invariant behind every session result. A history `Trail` lays out the DH
 epochs of the session: epoch 0 is the signed prekey, odd epochs are the user's,
 even ones the admin's, and epoch i's root and chain are the root KDF of epoch
 i-1's root with the secret of the two adjacent keys.
 */
module SessionInvariant {
  import opened Basics
  import opened Crypto
  import opened Ratchet
  import opened Session
  import EnvelopeCodec

  datatype Epoch = Epoch(priv: nat, root: Key, chain: Key)

  /** The n-fold chain step. */
  function Advance(ck: Key, n: nat): Key
  {
    if n == 0 then ck else KdfChain(Advance(ck, n - 1), CHAIN_INFO)
  }

  predicate Linked(a: Epoch, b: Epoch)
  {
    a.priv < b.priv && (b.root, b.chain) == RootKdf(a.root, X25519(a.priv, Pub(b.priv)))
  }

  predicate Chained(e: seq<Epoch>)
  {
    && |e| >= 2 && e[0].root.Secret?
    && (forall i :: 0 < i < |e| ==> Linked(e[i - 1], e[i]))
  }

  lemma {:induction false} ScalarsIncrease(e: seq<Epoch>, i: nat, j: nat)
    requires Chained(e) && i < j < |e|
    ensures e[i].priv < e[j].priv
  {
    assert Linked(e[j - 1], e[j]);
    if i < j - 1 {
      ScalarsIncrease(e, i, j - 1);
    }
  }

  /** No root occurs twice: a root is as deep as its epoch. */
  lemma {:induction false} RootsDiffer(e: seq<Epoch>, i: nat, j: nat)
    requires Chained(e) && i < j < |e|
    ensures e[i].root != e[j].root
  {
    assert Linked(e[j - 1], e[j]);
    if i > 0 {
      assert Linked(e[i - 1], e[i]);
      RootsDiffer(e, i - 1, j - 1);
    }
  }

  /** Chain keys of all epochs and all counts are pairwise distinct. */
  lemma {:induction false} ChainKeysDiffer(e: seq<Epoch>, i: nat, n: nat, j: nat, m: nat)
    requires Chained(e) && 0 < i < |e| && 0 < j < |e| && (i != j || n != m)
    ensures Advance(e[i].chain, n) != Advance(e[j].chain, m)
  {
    assert Linked(e[i - 1], e[i]) && Linked(e[j - 1], e[j]);
    if n > 0 && m > 0 {
      ChainKeysDiffer(e, i, n - 1, j, m - 1);
    } else if i < j {
      RootsDiffer(e, i - 1, j - 1);
    } else if j < i {
      RootsDiffer(e, j - 1, i - 1);
    }
  }

  // ---- Where one device stands ----------------------------------------------------

  /** The ratchet `r` sends in epoch `pos` and receives in epoch `pos - 1`. */
  predicate Stands(e: seq<Epoch>, pos: nat, r: State)
  {
    && 0 < pos < |e| && r.nSend >= 0 && r.nRecv >= 0
    && r.rootKey == e[pos].root
    && r.sendChainKey == Advance(e[pos].chain, r.nSend)
    && r.dhSendPriv == e[pos].priv && r.dhSendPub == Pub(e[pos].priv) && r.dhRecvPub == Pub(e[pos - 1].priv)
    && (pos == 1 ==> r.nRecv == 0 && r.recvChainKey == Zero)
    && (pos > 1 ==> r.recvChainKey == Advance(e[pos - 1].chain, r.nRecv))
  }

  datatype Tag = Tag(epoch: nat, num: nat)

  function MessageKeyOf(e: seq<Epoch>, t: Tag): Key
    requires t.epoch < |e|
  {
    KdfChain(Advance(e[t.epoch].chain, t.num), MSG_INFO)
  }

  /** `env` is message `t.num` of epoch `t.epoch`. */
  predicate Carries(e: seq<Epoch>, env: Env, t: Tag)
  {
    && 0 < t.epoch < |e|
    && env.ratchetPub == Pub(e[t.epoch].priv)
    && env.msgNumber == t.num
    && env.ciphertext.key == MessageKeyOf(e, t)
    && env.ciphertext.nonce == env.nonce
    && env.ciphertext.aad == EnvelopeCodec.Aad(env.senderDevId, env.recipientDevId, env.msgNumber)
  }

  /** The receiver at `pos` with `nRecv` messages in takes exactly the next one, or the first of a new epoch. */
  predicate Expected(pos: nat, r: State, t: Tag)
  {
    (pos > 1 && t.epoch == pos - 1 && t.num == r.nRecv) || t == Tag(pos + 1, 0)
  }

  /** The one place where a message key can match: the derived key opens an envelope iff it is expected. */
  lemma OpensIffExpected(e: seq<Epoch>, pos: nat, r: State, env: Env, t: Tag, newPriv: nat)
    requires Chained(e) && Stands(e, pos, r) && Carries(e, env, t)
    ensures Open(env, RecvKey(Facing(r, env, newPriv))).Some? <==> Expected(pos, r, t)
    ensures Expected(pos, r, t) ==>
              Open(env, RecvKey(Facing(r, env, newPriv))) == Some(env.ciphertext.plaintext)
  {
    if t.epoch < pos - 1 {
      ScalarsIncrease(e, t.epoch, pos - 1);
    } else if t.epoch > pos - 1 {
      ScalarsIncrease(e, pos - 1, t.epoch);
    }
    if t.epoch == pos - 1 {
      if r.nRecv != t.num {
        ChainKeysDiffer(e, pos - 1, r.nRecv, pos - 1, t.num);
      }
    } else {
      assert Linked(e[t.epoch - 1], e[t.epoch]);
      if t.epoch - 1 < pos {
        RootsDiffer(e, t.epoch - 1, pos);
      } else if pos < t.epoch - 1 {
        RootsDiffer(e, pos, t.epoch - 1);
      }
      DhAgrees(e[pos].priv, e[t.epoch].priv, e[t.epoch].priv);
    }
  }

  /** Accepting the first message of the next epoch opens one more epoch, two ahead of the old one. */
  lemma RotationExtends(e: seq<Epoch>, pos: nat, r: State, env: Env, newPriv: nat)
    requires Chained(e) && Stands(e, pos, r) && Carries(e, env, Tag(pos + 1, 0))
    requires |e| == pos + 2 && e[pos + 1].priv < newPriv
    ensures var r' := AfterRecv(Facing(r, env, newPriv));
            var e' := e + [Epoch(newPriv, r'.rootKey, r'.sendChainKey)];
            && Chained(e') && Stands(e', pos + 2, r')
            && r'.nSend == 0 && r'.nRecv == 1 && r'.pn == r.nSend
  {
    ScalarsIncrease(e, pos - 1, pos + 1);
    assert Linked(e[pos], e[pos + 1]);
    var r' := AfterRecv(Facing(r, env, newPriv));
    var e' := e + [Epoch(newPriv, r'.rootKey, r'.sendChainKey)];
    DhAgrees(e[pos].priv, e[pos + 1].priv, newPriv);
    DhAgrees(newPriv, e[pos + 1].priv, newPriv);
    assert Advance(e[pos + 1].chain, 1) == KdfChain(Advance(e[pos + 1].chain, 0), CHAIN_INFO);
    forall i | 0 < i < |e'| ensures Linked(e'[i - 1], e'[i]) {
      if i < |e| {
        assert Linked(e[i - 1], e[i]);
      }
    }
  }

  // ---- Logs -----------------------------------------------------------------

  /** `b` comes right after `a`: the next message of its epoch, or the first of the sender's next epoch. */
  predicate Follows(a: Tag, b: Tag)
  {
    b == Tag(a.epoch, a.num + 1) || b == Tag(a.epoch + 2, 0)
  }

  /** Entry `i` continues entry `i - 1`, and its prevChainLen counts the sender's previous epoch. */
  predicate Placed(log: seq<Outgoing>, tags: seq<Tag>, first: nat, i: nat)
    requires |log| == |tags| && i < |log|
  {
    if i == 0 then tags[0] == Tag(first, 0) && log[0].env.prevChainLen == 0
    else
      && Follows(tags[i - 1], tags[i])
      && log[i].env.prevChainLen == (if tags[i].num > 0 then log[i - 1].env.prevChainLen else tags[i - 1].num + 1)
  }

  predicate SentOk(e: seq<Epoch>, log: seq<Outgoing>, tags: seq<Tag>, first: nat)
  {
    && |log| == |tags|
    && (forall i :: 0 <= i < |log| ==> Carries(e, log[i].env, tags[i]))
    && (forall i :: 0 <= i < |log| ==> Placed(log, tags, first, i))
  }

  /** The stored counters of the sender at `pos` agree with the end of its log. */
  predicate SentEnd(log: seq<Outgoing>, tags: seq<Tag>, first: nat, pos: nat, r: State)
    requires |log| == |tags|
  {
    if log == [] then pos == first && r.nSend == 0 && r.pn == 0
    else
      var last := |log| - 1;
      if r.nSend > 0 then tags[last].epoch == pos && tags[last].num == r.nSend - 1 && r.pn == log[last].env.prevChainLen
      else tags[last].epoch + 2 == pos && tags[last].num + 1 == r.pn
  }

  predicate Less(a: Tag, b: Tag) { a.epoch < b.epoch || (a.epoch == b.epoch && a.num < b.num) }

  lemma {:induction false} TagsAscend(e: seq<Epoch>, log: seq<Outgoing>, tags: seq<Tag>, first: nat, i: nat, j: nat)
    requires SentOk(e, log, tags, first) && i < j < |tags|
    ensures Less(tags[i], tags[j])
  {
    assert Placed(log, tags, first, j);
    if i < j - 1 {
      TagsAscend(e, log, tags, first, i, j - 1);
    }
  }

  lemma {:induction false} TagsKeepParity(e: seq<Epoch>, log: seq<Outgoing>, tags: seq<Tag>, first: nat, i: nat)
    requires SentOk(e, log, tags, first) && i < |tags|
    ensures tags[i].epoch % 2 == first % 2
  {
    assert Placed(log, tags, first, i);
    if i > 0 {
      TagsKeepParity(e, log, tags, first, i - 1);
    }
  }

  /** No envelope of a sender at `pos` is from a later epoch. */
  lemma TagsBounded(e: seq<Epoch>, log: seq<Outgoing>, tags: seq<Tag>, first: nat, pos: nat, r: State, i: nat)
    requires SentOk(e, log, tags, first) && SentEnd(log, tags, first, pos, r) && i < |tags|
    ensures tags[i].epoch <= pos
  {
    if i < |tags| - 1 {
      TagsAscend(e, log, tags, first, i, |tags| - 1);
    }
  }

  lemma SentOkExtends(e: seq<Epoch>, x: Epoch, log: seq<Outgoing>, tags: seq<Tag>, first: nat)
    requires SentOk(e, log, tags, first)
    ensures SentOk(e + [x], log, tags, first)
  {
    forall i | 0 <= i < |log| ensures Carries(e + [x], log[i].env, tags[i]) {
      assert Carries(e, log[i].env, tags[i]);
    }
  }

  lemma SealCarries(e: seq<Epoch>, pos: nat, r: State,
                    sender: Bytes, recipient: Bytes, boot: Option<Header>, text: string, nonce: nat)
    requires Stands(e, pos, r)
    ensures Carries(e, SealWith(r, sender, recipient, boot, text, nonce), Tag(pos, r.nSend))
    ensures Stands(e, pos, AfterSend(r))
  {
  }

  /** Sealing with the stored ratchet appends the next message of the current epoch. */
  lemma EmitKeeps(e: seq<Epoch>, pos: nat, r: State, log: seq<Outgoing>, tags: seq<Tag>, first: nat, env: Env, out: bool)
    requires SentOk(e, log, tags, first) && SentEnd(log, tags, first, pos, r) && r.nSend >= 0
    requires Carries(e, env, Tag(pos, r.nSend)) && env.prevChainLen == r.pn
    ensures var log' := log + [Outgoing(env, out)];
            var tags' := tags + [Tag(pos, r.nSend)];
            SentOk(e, log', tags', first) && SentEnd(log', tags', first, pos, AfterSend(r))
  {
    var log' := log + [Outgoing(env, out)];
    var tags' := tags + [Tag(pos, r.nSend)];
    forall i | 0 <= i < |log'| ensures Carries(e, log'[i].env, tags'[i]) && Placed(log', tags', first, i) {
      if i < |log| {
        assert Carries(e, log[i].env, tags[i]) && Placed(log, tags, first, i);
      }
    }
  }

  /** Accepted entry `j` is entry `idx[j]` of the peer's log, let out, and continues accepted entry `j - 1`. */
  predicate Taken(acc: seq<Incoming>, idx: seq<nat>, log: seq<Outgoing>, tags: seq<Tag>, first: nat, j: nat)
    requires |log| == |tags| && |acc| == |idx| && j < |acc|
  {
    && idx[j] < |log|
    && log[idx[j]] == Outgoing(acc[j].env, true)
    && acc[j].plaintext == acc[j].env.ciphertext.plaintext
    && (if j == 0 then tags[idx[0]] == Tag(first, 0)
        else idx[j - 1] < idx[j] && Follows(tags[idx[j - 1]], tags[idx[j]]))
  }

  predicate AcceptedOk(acc: seq<Incoming>, idx: seq<nat>, log: seq<Outgoing>, tags: seq<Tag>, first: nat)
    requires |log| == |tags|
  {
    && |acc| == |idx|
    && (forall j :: 0 <= j < |acc| ==> Taken(acc, idx, log, tags, first, j))
  }

  /** The receiver's counter agrees with the last accepted message, which is from epoch `pos - 1`. */
  predicate AcceptedEnd(idx: seq<nat>, tags: seq<Tag>, first: nat, pos: nat, nRecv: int)
  {
    if idx == [] then pos + 1 == first && nRecv == 0
    else
      var last := idx[|idx| - 1];
      last < |tags| && tags[last].epoch + 1 == pos && tags[last].num == nRecv - 1
  }

  lemma AcceptedOkGrows(acc: seq<Incoming>, idx: seq<nat>, log: seq<Outgoing>, tags: seq<Tag>, first: nat,
                        x: Outgoing, t: Tag)
    requires |log| == |tags| && AcceptedOk(acc, idx, log, tags, first)
    ensures AcceptedOk(acc, idx, log + [x], tags + [t], first)
  {
    forall j | 0 <= j < |acc| ensures Taken(acc, idx, log + [x], tags + [t], first, j) {
      assert Taken(acc, idx, log, tags, first, j);
      if j > 0 {
        assert Taken(acc, idx, log, tags, first, j - 1);
      }
    }
  }

  /** Taking an expected envelope keeps the accepted list a strictly increasing selection of the peer's log. */
  lemma TakeKeeps(e: seq<Epoch>, acc: seq<Incoming>, idx: seq<nat>, log: seq<Outgoing>, tags: seq<Tag>, first: nat,
                  pos: nat, r: State, i: nat, got: Incoming)
    requires SentOk(e, log, tags, first) && AcceptedOk(acc, idx, log, tags, first)
    requires AcceptedEnd(idx, tags, first, pos, r.nRecv) && first <= 2
    requires i < |log| && log[i] == Outgoing(got.env, true) && Expected(pos, r, tags[i])
    requires got.plaintext == got.env.ciphertext.plaintext
    ensures AcceptedOk(acc + [got], idx + [i], log, tags, first)
  {
    var acc', idx' := acc + [got], idx + [i];
    if idx != [] {
      var last := idx[|idx| - 1];
      if i < last {
        TagsAscend(e, log, tags, first, i, last);
      }
    }
    forall j | 0 <= j < |acc'| ensures Taken(acc', idx', log, tags, first, j) {
      if j < |acc| {
        assert Taken(acc, idx, log, tags, first, j);
      }
    }
  }
}
