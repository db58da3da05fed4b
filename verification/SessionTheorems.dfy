/** What holds in every run, in terms of envelopes and stored ratchets alone. */
module SessionTheorems {
  import opened Basics
  import opened Crypto
  import opened Ratchet
  import opened X3dh
  import opened Session
  import opened SessionInvariant
  import opened SessionRuns

  lemma ReachableInv(c: Config, w: World) returns (t: Trail)
    requires Reachable(c, w)
    ensures Inv(c, w, t)
  {
    var opks, next, steps :|
      && next > c.spk
      && PossibleRun(c, Initial(opks, next), steps)
      && w == Run(c, Initial(opks, next), steps);
    t := RunKeeps(c, Initial(opks, next), Trail([], 0, 0, [], [], [], [], None), steps);
  }

  lemma {:induction false} RunThen(c: Config, w: World, steps: seq<Step>, step: Step)
    requires PossibleRun(c, w, steps) && Possible(c, Run(c, w, steps), step)
    ensures PossibleRun(c, w, steps + [step]) && Run(c, w, steps + [step]) == Next(c, Run(c, w, steps), step)
    decreases |steps|
  {
    hide Next, Possible;
    if steps == [] {
      var w' := Next(c, w, step);
      assert PossibleRun(c, w', []) && Run(c, w', []) == w' && ([] + [step])[1..] == [];
    } else {
      assert (steps + [step])[1..] == steps[1..] + [step];
      RunThen(c, Next(c, w, steps[0]), steps[1..], step);
    }
  }

  lemma NextIsReachable(c: Config, w: World, step: Step)
    requires Reachable(c, w) && Possible(c, w, step)
    ensures Reachable(c, Next(c, w, step))
  {
    hide Next, Possible;
    var opks, next, steps :|
      && next > c.spk
      && PossibleRun(c, Initial(opks, next), steps)
      && w == Run(c, Initial(opks, next), steps);
    RunThen(c, Initial(opks, next), steps, step);
  }

  lemma {:induction false} RunIsReachable(c: Config, w: World, steps: seq<Step>)
    requires Reachable(c, w) && PossibleRun(c, w, steps)
    ensures Reachable(c, Run(c, w, steps))
    decreases |steps|
  {
    hide Next, Possible, Reachable;
    if steps != [] {
      NextIsReachable(c, w, steps[0]);
      RunIsReachable(c, Next(c, w, steps[0]), steps[1..]);
    }
  }

  // ---- One common root chain ------------------------------------------------------

  /** `r` and `q` stand next to each other on the line of epochs that starts from the X3DH secret of `h`. */
  predicate OnOneLine(c: Config, h: Header, opk: Option<nat>, e: seq<Epoch>, pos: nat, r: State, pos': nat, r': State)
  {
    && Chained(e) && StartsSession(c, h, opk, e)
    && e[0].root == Initiate(c.userX, Pub(c.adminX), Pub(c.spk), PublicOf(opk), h.ephemeralX25519.priv)
    && Stands(e, pos, r) && Stands(e, pos', r')
    && (pos == pos' + 1 || pos' == pos + 1)
  }

  /**
   Both stored ratchets stand on one line of epochs, never more than one DH
   step apart. The line starts at the admin's signed prekey, with the secret
   both X3DH runs derive from the bootstrap's header.
   */
  lemma RootsAreAdjacent(c: Config, w: World)
    requires Reachable(c, w) && w.user.session.Some? && w.admin.session.Some?
    ensures w.user.sent != [] && w.user.sent[0].env.bootstrap.Some?
    ensures exists opk: Option<nat>, e: seq<Epoch>, p: nat, q: nat ::
              OnOneLine(c, w.user.sent[0].env.bootstrap.value, opk, e, p, w.user.session.value, q, w.admin.session.value)
  {
    var t := ReachableInv(c, w);
    var h := w.user.sent[0].env.bootstrap.value;
    SecretsAgreeIff(c.userX, h.ephemeralX25519.priv, c.adminX, c.spk, t.opk, c.adminX, c.spk, t.opk);
    assert OnOneLine(c, h, t.opk, t.epochs, t.user, w.user.session.value, t.admin, w.admin.session.value);
  }

  // ---- Accepted envelopes ---------------------------------------------------------

  /** `idx` picks the accepted envelopes out of the peer's log, each let out, in the order they were sealed. */
  ghost predicate Selects(idx: seq<nat>, acc: seq<Incoming>, log: seq<Outgoing>)
  {
    && |idx| == |acc|
    && (forall j :: 0 <= j < |acc| ==>
          && idx[j] < |log| && log[idx[j]] == Outgoing(acc[j].env, true)
          && acc[j].plaintext == log[idx[j]].env.ciphertext.plaintext)
    && (forall j, k :: 0 <= j < k < |acc| ==> idx[j] < idx[k])
  }

  lemma {:induction false} TakenIncreases(acc: seq<Incoming>, idx: seq<nat>, log: seq<Outgoing>, tags: seq<Tag>, first: nat,
                                          j: nat, k: nat)
    requires |log| == |tags| && AcceptedOk(acc, idx, log, tags, first) && j < k < |acc|
    ensures idx[j] < idx[k]
  {
    assert Taken(acc, idx, log, tags, first, k);
    if j < k - 1 {
      TakenIncreases(acc, idx, log, tags, first, j, k - 1);
    }
  }

  lemma TakenSelects(acc: seq<Incoming>, idx: seq<nat>, log: seq<Outgoing>, tags: seq<Tag>, first: nat)
    requires |log| == |tags| && AcceptedOk(acc, idx, log, tags, first)
    ensures Selects(idx, acc, log)
  {
    forall j | 0 <= j < |acc|
      ensures idx[j] < |log| && log[idx[j]] == Outgoing(acc[j].env, true)
           && acc[j].plaintext == log[idx[j]].env.ciphertext.plaintext
    {
      assert Taken(acc, idx, log, tags, first, j);
    }
    forall j, k | 0 <= j < k < |acc| ensures idx[j] < idx[k] {
      TakenIncreases(acc, idx, log, tags, first, j, k);
    }
  }

  /** On any network each device accepts a strictly increasing selection of what the peer let out, as written. */
  lemma AcceptedIsSelection(c: Config, w: World)
    requires Reachable(c, w)
    ensures exists idx :: Selects(idx, w.admin.accepted, w.user.sent)
    ensures exists idx :: Selects(idx, w.user.accepted, w.admin.sent)
  {
    var t := ReachableInv(c, w);
    if w.user.session.None? || w.admin.session.None? {
      assert Selects([], w.admin.accepted, w.user.sent);
    } else {
      TakenSelects(w.admin.accepted, t.adminTook, w.user.sent, t.userTags, 1);
    }
    if w.user.session.None? {
      assert Selects([], w.user.accepted, w.admin.sent);
    } else {
      TakenSelects(w.user.accepted, t.userTook, w.admin.sent, t.adminTags, 2);
    }
  }

  /**
   Entry `k` continues the run of its DH key from message 0 without a gap, or
   starts it; and when it starts one, its prevChainLen covers all that was
   accepted of the previous run.
   */
  predicate InOrder(acc: seq<Incoming>, k: nat)
    requires k < |acc|
  {
    var env := acc[k].env;
    if k > 0 && env.ratchetPub == acc[k - 1].env.ratchetPub then env.msgNumber == acc[k - 1].env.msgNumber + 1
    else
      && env.msgNumber == 0
      && (k > 0 ==> env.prevChainLen >= acc[k - 1].env.msgNumber + 1)
      && (forall j :: 0 <= j < k ==> acc[j].env.ratchetPub != env.ratchetPub)
  }

  lemma SameKeyIffSameEpoch(e: seq<Epoch>, env: Env, t: Tag, env': Env, t': Tag)
    requires Chained(e) && Carries(e, env, t) && Carries(e, env', t')
    ensures env.ratchetPub == env'.ratchetPub <==> t.epoch == t'.epoch
  {
    if t.epoch < t'.epoch {
      ScalarsIncrease(e, t.epoch, t'.epoch);
    } else if t'.epoch < t.epoch {
      ScalarsIncrease(e, t'.epoch, t.epoch);
    }
  }

  lemma TakenEarlier(e: seq<Epoch>, acc: seq<Incoming>, idx: seq<nat>, log: seq<Outgoing>, tags: seq<Tag>, first: nat,
                     j: nat, k: nat)
    requires Chained(e) && SentOk(e, log, tags, first) && AcceptedOk(acc, idx, log, tags, first) && j < k < |acc|
    ensures idx[j] < idx[k] < |tags| && Less(tags[idx[j]], tags[idx[k]])
    ensures acc[j].env.ratchetPub == acc[k].env.ratchetPub <==> tags[idx[j]].epoch == tags[idx[k]].epoch
  {
    assert Taken(acc, idx, log, tags, first, j) && Taken(acc, idx, log, tags, first, k);
    TakenIncreases(acc, idx, log, tags, first, j, k);
    TagsAscend(e, log, tags, first, idx[j], idx[k]);
    SameKeyIffSameEpoch(e, log[idx[j]].env, tags[idx[j]], log[idx[k]].env, tags[idx[k]]);
  }

  lemma TakenInOrder(e: seq<Epoch>, acc: seq<Incoming>, idx: seq<nat>, log: seq<Outgoing>, tags: seq<Tag>, first: nat, k: nat)
    requires Chained(e) && SentOk(e, log, tags, first) && AcceptedOk(acc, idx, log, tags, first) && k < |acc|
    ensures InOrder(acc, k)
  {
    assert Taken(acc, idx, log, tags, first, k);
    var i := idx[k];
    assert Carries(e, log[i].env, tags[i]) && Placed(log, tags, first, i);
    if k > 0 {
      TakenEarlier(e, acc, idx, log, tags, first, k - 1, k);
      var last := idx[k - 1];
      assert Taken(acc, idx, log, tags, first, k - 1) && Carries(e, log[last].env, tags[last]);
      if tags[i].num == 0 {
        forall j | 0 <= j < k ensures acc[j].env.ratchetPub != acc[k].env.ratchetPub {
          TakenEarlier(e, acc, idx, log, tags, first, j, k);
        }
        if last < i - 1 {
          TagsAscend(e, log, tags, first, last, i - 1);
        }
      }
    }
  }

  /** On any network: per DH key a gapless prefix, no key twice, counters in step. */
  lemma AcceptedInOrder(c: Config, w: World, k: nat)
    requires Reachable(c, w)
    ensures k < |w.admin.accepted| ==> InOrder(w.admin.accepted, k)
    ensures k < |w.user.accepted| ==> InOrder(w.user.accepted, k)
  {
    var t := ReachableInv(c, w);
    if k < |w.admin.accepted| {
      TakenInOrder(t.epochs, w.admin.accepted, t.adminTook, w.user.sent, t.userTags, 1, k);
    }
    if k < |w.user.accepted| {
      TakenInOrder(t.epochs, w.user.accepted, t.userTook, w.admin.sent, t.adminTags, 2, k);
    }
  }

  // ---- Message keys are used once -----------------------------------------------

  lemma KeyOfEntry(e: seq<Epoch>, log: seq<Outgoing>, tags: seq<Tag>, first: nat, i: nat)
    requires SentOk(e, log, tags, first) && i < |log|
    ensures 0 < tags[i].epoch < |e| && log[i].env.ciphertext.key == MessageKeyOf(e, tags[i])
  {
    assert Carries(e, log[i].env, tags[i]);
  }

  lemma KeysDifferInLog(e: seq<Epoch>, log: seq<Outgoing>, tags: seq<Tag>, first: nat, i: nat, j: nat)
    requires Chained(e) && SentOk(e, log, tags, first) && i < j < |log|
    ensures log[i].env.ciphertext.key != log[j].env.ciphertext.key
  {
    KeyOfEntry(e, log, tags, first, i);
    KeyOfEntry(e, log, tags, first, j);
    TagsAscend(e, log, tags, first, i, j);
    ChainKeysDiffer(e, tags[i].epoch, tags[i].num, tags[j].epoch, tags[j].num);
  }

  /** No two envelopes of a session are sealed with one key, whichever device sealed them and wherever it crashed. */
  lemma MessageKeysAreUnique(c: Config, w: World, i: nat, j: nat)
    requires Reachable(c, w)
    ensures i < j < |w.user.sent| ==> w.user.sent[i].env.ciphertext.key != w.user.sent[j].env.ciphertext.key
    ensures i < j < |w.admin.sent| ==> w.admin.sent[i].env.ciphertext.key != w.admin.sent[j].env.ciphertext.key
    ensures i < |w.user.sent| && j < |w.admin.sent| ==>
              w.user.sent[i].env.ciphertext.key != w.admin.sent[j].env.ciphertext.key
  {
    var t := ReachableInv(c, w);
    var e := t.epochs;
    if i < j < |w.user.sent| {
      KeysDifferInLog(e, w.user.sent, t.userTags, 1, i, j);
    }
    if i < j < |w.admin.sent| {
      KeysDifferInLog(e, w.admin.sent, t.adminTags, 2, i, j);
    }
    if i < |w.user.sent| && j < |w.admin.sent| {
      KeyOfEntry(e, w.user.sent, t.userTags, 1, i);
      KeyOfEntry(e, w.admin.sent, t.adminTags, 2, j);
      TagsKeepParity(e, w.user.sent, t.userTags, 1, i);
      TagsKeepParity(e, w.admin.sent, t.adminTags, 2, j);
      ChainKeysDiffer(e, t.userTags[i].epoch, t.userTags[i].num, t.adminTags[j].epoch, t.adminTags[j].num);
    }
  }

  // ---- Exactly which envelopes are accepted ---------------------------------------

  /** Of every epoch of the peer up to the current one, some message was accepted. */
  lemma {:induction false} EveryEpochWasTaken(acc: seq<Incoming>, idx: seq<nat>, log: seq<Outgoing>, tags: seq<Tag>, first: nat,
                                              k: nat, epoch: nat) returns (j: nat)
    requires |log| == |tags| && AcceptedOk(acc, idx, log, tags, first) && k < |acc| && idx[k] < |tags|
    requires first <= epoch <= tags[idx[k]].epoch && (tags[idx[k]].epoch - epoch) % 2 == 0
    ensures j <= k && idx[j] < |tags| && tags[idx[j]].epoch == epoch
  {
    assert Taken(acc, idx, log, tags, first, k);
    j := k;
    if epoch != tags[idx[k]].epoch {
      assert k > 0;
      assert Taken(acc, idx, log, tags, first, k - 1);
      j := EveryEpochWasTaken(acc, idx, log, tags, first, k - 1, epoch);
    }
  }

  /** The next message under the peer's current DH key, or the first under a DH key never accepted before. */
  predicate Awaited(p: Party, env: Env)
    requires p.session.Some?
  {
    || (env.ratchetPub == p.session.value.dhRecvPub && env.msgNumber == p.session.value.nRecv)
    || (env.msgNumber == 0 && forall j :: 0 <= j < |p.accepted| ==> p.accepted[j].env.ratchetPub != env.ratchetPub)
  }

  /** Everything accepted so far is from epochs before the receiver's own. */
  lemma TakenBehind(e: seq<Epoch>, p: Party, pos: nat, tags: seq<Tag>, first: nat,
                    took: seq<nat>, log: seq<Outgoing>, peerTags: seq<Tag>, peerFirst: nat, j: nat)
    requires Chained(e) && Half(e, p, pos, tags, first, took, log, peerTags, peerFirst)
    requires SentOk(e, log, peerTags, peerFirst) && j < |took|
    ensures took[j] < |log| && log[took[j]].env == p.accepted[j].env && peerTags[took[j]].epoch < pos
  {
    assert Taken(p.accepted, took, log, peerTags, peerFirst, j);
    if j < |took| - 1 {
      TakenEarlier(e, p.accepted, took, log, peerTags, peerFirst, j, |took| - 1);
    }
  }

  /** Of an epoch further back, the first message at least was taken, so its DH key is known. */
  lemma OldKeysAreKnown(e: seq<Epoch>, p: Party, pos: nat, tags: seq<Tag>, first: nat,
                        took: seq<nat>, log: seq<Outgoing>, peerTags: seq<Tag>, peerFirst: nat, i: nat) returns (j: nat)
    requires Chained(e) && Half(e, p, pos, tags, first, took, log, peerTags, peerFirst)
    requires SentOk(e, log, peerTags, peerFirst) && 0 < peerFirst <= 2 && i < |log| && peerTags[i].epoch <= pos
    ensures j < |p.accepted| && p.accepted[j].env.ratchetPub == log[i].env.ratchetPub && peerTags[i].epoch < pos
  {
    var t, last := peerTags[i], |took| - 1;
    assert Placed(log, peerTags, peerFirst, 0) && Carries(e, log[i].env, t);
    TagsKeepParity(e, log, peerTags, peerFirst, i);
    if i > 0 {
      TagsAscend(e, log, peerTags, peerFirst, 0, i);
    }
    hide Carries, Taken, Placed;
    assert took != [];
    TagsKeepParity(e, log, peerTags, peerFirst, took[last]);
    j := EveryEpochWasTaken(p.accepted, took, log, peerTags, peerFirst, last, t.epoch);
    TakenBehind(e, p, pos, tags, first, took, log, peerTags, peerFirst, j);
    SameKeyIffSameEpoch(e, log[took[j]].env, peerTags[took[j]], log[i].env, t);
  }

  lemma ExpectedIffAwaited(e: seq<Epoch>, p: Party, pos: nat, tags: seq<Tag>, first: nat,
                           took: seq<nat>, log: seq<Outgoing>, peerTags: seq<Tag>, peerFirst: nat, i: nat)
    requires Chained(e) && Half(e, p, pos, tags, first, took, log, peerTags, peerFirst)
    requires SentOk(e, log, peerTags, peerFirst) && 0 < peerFirst <= 2 && i < |log| && peerTags[i].epoch <= pos + 1
    ensures Expected(pos, p.session.value, peerTags[i]) <==> Awaited(p, log[i].env)
  {
    var t, env := peerTags[i], log[i].env;
    assert Carries(e, env, t);
    if t.epoch <= pos {
      var j := OldKeysAreKnown(e, p, pos, tags, first, took, log, peerTags, peerFirst, i);
      if t.epoch < pos - 1 {
        ScalarsIncrease(e, t.epoch, pos - 1);
      }
    } else {
      ScalarsIncrease(e, pos - 1, pos + 1);
      forall j | 0 <= j < |p.accepted| ensures p.accepted[j].env.ratchetPub != env.ratchetPub {
        TakenBehind(e, p, pos, tags, first, took, log, peerTags, peerFirst, j);
        SameKeyIffSameEpoch(e, log[took[j]].env, peerTags[took[j]], env, t);
      }
    }
  }

  /** The key the user would derive opens an entry of the admin's log if and only if that entry is awaited. */
  lemma UserOpensIff(c: Config, w: World, t: Trail, i: nat, newPriv: nat)
    requires Inv(c, w, t) && w.user.session.Some? && i < |w.admin.sent|
    ensures var env := w.admin.sent[i].env;
            Open(env, RecvKey(Facing(w.user.session.value, env, newPriv)))
              == if Awaited(w.user, env) then Some(env.ciphertext.plaintext) else None
  {
    hide Taken, Placed, SentEnd, AcceptedEnd, Linked;
    TagsBounded(t.epochs, w.admin.sent, t.adminTags, 2, t.admin, w.admin.session.value, i);
    ExpectedIffAwaited(t.epochs, w.user, t.user, t.userTags, 1, t.userTook, w.admin.sent, t.adminTags, 2, i);
    assert Carries(t.epochs, w.admin.sent[i].env, t.adminTags[i]);
    OpensIffExpected(t.epochs, t.user, w.user.session.value, w.admin.sent[i].env, t.adminTags[i], newPriv);
  }

  lemma AdminOpensIff(c: Config, w: World, t: Trail, i: nat, newPriv: nat)
    requires Inv(c, w, t) && w.user.session.Some? && w.admin.session.Some? && i < |w.user.sent|
    ensures var env := w.user.sent[i].env;
            Open(env, RecvKey(Facing(w.admin.session.value, env, newPriv)))
              == if Awaited(w.admin, env) then Some(env.ciphertext.plaintext) else None
  {
    hide Taken, Placed, SentEnd, AcceptedEnd, Linked;
    TagsBounded(t.epochs, w.user.sent, t.userTags, 1, t.user, w.user.session.value, i);
    ExpectedIffAwaited(t.epochs, w.admin, t.admin, t.adminTags, 2, t.adminTook, w.user.sent, t.userTags, 1, i);
    assert Carries(t.epochs, w.user.sent[i].env, t.userTags[i]);
    OpensIffExpected(t.epochs, t.admin, w.admin.session.value, w.user.sent[i].env, t.userTags[i], newPriv);
  }

  /**
   A signed envelope of the admin is accepted if and only if it is awaited; if
   it is not, the stored state stays as it was.
   */
  lemma UserAcceptsIff(c: Config, w: World, i: nat)
    requires Reachable(c, w) && w.user.session.Some? && i < |w.admin.sent| && w.admin.sent[i].transmitted
    ensures var env := w.admin.sent[i].env;
            var u' := UserReceives(w.user, Signed(env, c.adminEd), w.next, NoCrash);
            && (u' != w.user <==> Awaited(w.user, env))
            && (u' != w.user ==> u'.accepted == w.user.accepted + [Incoming(env, env.ciphertext.plaintext, true)])
  {
    hide Carries, Taken, Placed, Stands, SentEnd, AcceptedEnd, SentOk, AcceptedOk, Linked, Awaited, AfterRecv, RecvKey, Facing;
    var t := ReachableInv(c, w);
    UserOpensIff(c, w, t, i, w.next);
  }

  /** The same for the admin, which also needs the user's identity in its cache. */
  lemma AdminAcceptsIff(c: Config, w: World, i: nat)
    requires Reachable(c, w) && w.admin.session.Some?
    requires 0 < i < |w.user.sent| && w.user.sent[i].transmitted
    ensures var env := w.user.sent[i].env;
            var (a', opks') := AdminReceives(c, w.admin, w.opks, Signed(env, c.userEd), w.next, NoCrash);
            && (a' != w.admin <==> w.admin.peerEd.Some? && Awaited(w.admin, env))
            && (a' != w.admin ==> a'.accepted == w.admin.accepted + [Incoming(env, env.ciphertext.plaintext, true)])
            && opks' == w.opks
  {
    hide Carries, Taken, Placed, Stands, SentEnd, AcceptedEnd, SentOk, AcceptedOk, Linked, Awaited, AfterRecv, RecvKey, Facing;
    var t := ReachableInv(c, w);
    AdminOpensIff(c, w, t, i, w.next);
  }

  /** Counters agree at every acceptance: the number in the envelope is the receiver's count before it. */
  predicate InStepWith(r: State, env: Env, r': State)
  {
    && env.msgNumber == (if env.ratchetPub == r.dhRecvPub then r.nRecv else 0)
    && r'.nRecv == env.msgNumber + 1 && r'.dhRecvPub == env.ratchetPub
  }

  lemma ExpectedInStep(e: seq<Epoch>, pos: nat, r: State, env: Env, t: Tag, newPriv: nat)
    requires Chained(e) && Stands(e, pos, r) && Carries(e, env, t) && Expected(pos, r, t)
    ensures InStepWith(r, env, AfterRecv(Facing(r, env, newPriv)))
  {
    if t.epoch == pos + 1 {
      ScalarsIncrease(e, pos - 1, pos + 1);
    }
  }

  /** Whatever packet the network hands over, the user app only ever takes a message that is in step. */
  lemma UserStaysInStep(c: Config, w: World, packet: Packet, crash: Crash)
    requires Reachable(c, w) && Possible(c, w, ToUser(packet, crash))
    ensures var u' := Next(c, w, ToUser(packet, crash)).user;
            u' != w.user ==> w.user.session.Some? && u'.session.Some?
                             && InStepWith(w.user.session.value, packet.env, u'.session.value)
  {
    hide Taken, Placed, SentEnd, AcceptedEnd, Linked, Advance, AfterRotate;
    var t := ReachableInv(c, w);
    var u' := Next(c, w, ToUser(packet, crash)).user;
    if u' != w.user {
      var i :| 0 <= i < |w.admin.sent| && w.admin.sent[i] == Outgoing(packet.env, true);
      assert Carries(t.epochs, packet.env, t.adminTags[i]);
      OpensIffExpected(t.epochs, t.user, w.user.session.value, packet.env, t.adminTags[i], w.next);
      ExpectedInStep(t.epochs, t.user, w.user.session.value, packet.env, t.adminTags[i], w.next);
    }
  }

  lemma AdminStaysInStep(c: Config, w: World, packet: Packet, crash: Crash)
    requires Reachable(c, w) && Possible(c, w, ToAdmin(packet, crash)) && packet.env.bootstrap.None?
    ensures var a' := Next(c, w, ToAdmin(packet, crash)).admin;
            a' != w.admin ==> w.admin.session.Some? && a'.session.Some?
                              && InStepWith(w.admin.session.value, packet.env, a'.session.value)
  {
    hide Taken, Placed, SentEnd, AcceptedEnd, Linked, Advance, AfterRotate;
    var t := ReachableInv(c, w);
    var a' := Next(c, w, ToAdmin(packet, crash)).admin;
    if a' != w.admin {
      var i :| 0 <= i < |w.user.sent| && w.user.sent[i] == Outgoing(packet.env, true);
      assert Carries(t.epochs, packet.env, t.userTags[i]);
      OpensIffExpected(t.epochs, t.admin, w.admin.session.value, packet.env, t.userTags[i], w.next);
      ExpectedInStep(t.epochs, t.admin, w.admin.session.value, packet.env, t.userTags[i], w.next);
    }
  }

  /** Remark, from the order of the writes alone: for any packet and any crash, what is not accepted leaves no trace. */
  lemma NotAcceptedMeansUntouched(c: Config, w: World, packet: Packet, newPriv: nat, crash: Crash)
    ensures var u' := UserReceives(w.user, packet, newPriv, crash);
            u'.accepted == w.user.accepted ==> u' == w.user
    ensures var (a', opks') := AdminReceives(c, w.admin, w.opks, packet, newPriv, crash);
            a'.accepted == w.admin.accepted ==> a' == w.admin && (packet.env.bootstrap.None? ==> opks' == w.opks)
  {
  }

  // ---- Replayed bootstraps --------------------------------------------------------

  /**
   Delivering the bootstrap again leaves the admin's stored session alone if
   and only if it named a one-time prekey. Without one the handler answers a
   second time, with a new scalar, and overwrites the session.
   */
  lemma ReplayedBootstrapIff(c: Config, w: World)
    requires Reachable(c, w) && w.admin.session.Some? && w.user.sent != [] && w.user.sent[0].transmitted
    ensures w.user.sent[0].env.bootstrap.Some?
    ensures var env := w.user.sent[0].env;
            var (a', opks') := AdminReceives(c, w.admin, w.opks, Signed(env, c.userEd), w.next, NoCrash);
            && (a'.session == w.admin.session <==> env.bootstrap.value.oneTimePrekeyId != 0)
            && (env.bootstrap.value.oneTimePrekeyId != 0 ==> a' == w.admin && opks' == w.opks)
  {
    hide Taken, SentEnd, AcceptedEnd, AcceptedOk;
    var t := ReachableInv(c, w);
    var env := w.user.sent[0].env;
    assert Carries(t.epochs, env, t.userTags[0]) && Placed(w.user.sent, t.userTags, 1, 0);
    if env.bootstrap.value.oneTimePrekeyId == 0 {
      assert Linked(t.epochs[0], t.epochs[1]);
      RotationMeetsPeer(ResponderRatchet(c, w.opks, env.bootstrap.value), t.epochs[1].priv, w.next);
      DhAgrees(t.epochs[1].priv, c.spk, w.next);
      assert Advance(t.epochs[1].chain, 0) == t.epochs[1].chain;
      if t.admin < |t.epochs| - 1 {
        ScalarsIncrease(t.epochs, t.admin, |t.epochs| - 1);
      }
    }
  }
}
