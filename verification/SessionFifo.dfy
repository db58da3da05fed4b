/** Lossless first-in first-out channels: nothing that is delivered fails to open. */
module SessionFifo {
  import opened Basics
  import opened Session
  import opened SessionInvariant
  import opened SessionRuns

  /** The devices, and how many envelopes of the peer's log each has been handed so far. */
  datatype Channel = Channel(w: World, toUser: nat, toAdmin: nat)

  datatype Turn =
    | UserTypes(text: string, bundle: Bundle, nonce: nat)
    | AdminReplies(text: string, nonce: nat)
    | UserGets
    | AdminGets

  /** Nobody crashes, and each delivery hands over the oldest envelope not delivered yet. */
  function Play(c: Config, s: Channel, turn: Turn): Channel
  {
    match turn
    case UserTypes(text, b, nonce) => s.(w := Next(c, s.w, UserSend(text, b, nonce, NoCrash)))
    case AdminReplies(text, nonce) => s.(w := Next(c, s.w, AdminSend(text, nonce, NoCrash)))
    case UserGets =>
      if s.toUser >= |s.w.admin.sent| then s
      else s.(w := Next(c, s.w, ToUser(Signed(s.w.admin.sent[s.toUser].env, c.adminEd), NoCrash)), toUser := s.toUser + 1)
    case AdminGets =>
      if s.toAdmin >= |s.w.user.sent| then s
      else s.(w := Next(c, s.w, ToAdmin(Signed(s.w.user.sent[s.toAdmin].env, c.userEd), NoCrash)), toAdmin := s.toAdmin + 1)
  }

  predicate Fair(c: Config, s: Channel, turn: Turn)
  {
    turn.UserTypes? ==> Genuine(c, s.w.opks, turn.bundle)
  }

  function PlayAll(c: Config, s: Channel, turns: seq<Turn>): Channel
    decreases |turns|
  {
    if turns == [] then s else PlayAll(c, Play(c, s, turns[0]), turns[1..])
  }

  predicate FairRun(c: Config, s: Channel, turns: seq<Turn>)
    decreases |turns|
  {
    turns == [] || (Fair(c, s, turns[0]) && FairRun(c, Play(c, s, turns[0]), turns[1..]))
  }

  predicate Counts(took: seq<nat>, n: nat)
  {
    |took| == n && forall j :: 0 <= j < n ==> took[j] == j
  }

  predicate AllOut(log: seq<Outgoing>) { forall i :: 0 <= i < |log| ==> log[i].transmitted }

  predicate AllShown(acc: seq<Incoming>) { forall i :: 0 <= i < |acc| ==> acc[i].inserted }

  predicate Answering(s: Channel)
    requires s.w.user.sent != [] && s.w.user.sent[0].env.bootstrap.Some?
  {
    var id := s.w.user.sent[0].env.bootstrap.value.oneTimePrekeyId;
    if s.w.admin.session.None? then s.toAdmin == 0 && (id == 0 || id in s.w.opks)
    else s.toAdmin > 0 && s.w.admin.peerEd.Some?
  }

  predicate FifoInv(c: Config, s: Channel, t: Trail)
  {
    && Inv(c, s.w, t)
    && AllOut(s.w.user.sent) && AllOut(s.w.admin.sent)
    && AllShown(s.w.user.accepted) && AllShown(s.w.admin.accepted)
    && (if s.w.user.session.None? then s.toUser == 0 && s.toAdmin == 0
        else Counts(t.userTook, s.toUser) && Counts(t.adminTook, s.toAdmin) && Answering(s))
  }

  /** The oldest envelope not yet taken is the one the receiver expects. */
  lemma NextIsExpected(e: seq<Epoch>, p: Party, pos: nat, tags: seq<Tag>, first: nat,
                       took: seq<nat>, log: seq<Outgoing>, peerTags: seq<Tag>, peerFirst: nat, n: nat)
    requires Half(e, p, pos, tags, first, took, log, peerTags, peerFirst) && SentOk(e, log, peerTags, peerFirst)
    requires Counts(took, n) && n < |log|
    ensures Expected(pos, p.session.value, peerTags[n])
  {
    assert Placed(log, peerTags, peerFirst, n) && Carries(e, log[n].env, peerTags[n]);
    if n > 0 {
      assert took[n - 1] == n - 1;
      assert Carries(e, log[n - 1].env, peerTags[n - 1]);
    }
  }

  lemma UserGetsNext(c: Config, s: Channel, t: Trail) returns (t': Trail)
    requires FifoInv(c, s, t)
    ensures FifoInv(c, Play(c, s, UserGets), t')
  {
    hide Carries, Taken, Placed, Stands, SentEnd, AcceptedEnd, SentOk, AcceptedOk, Linked;
    t' := t;
    var w := s.w;
    if s.toUser < |w.admin.sent| {
      t' := UserTakesEntry(c, w, t, s.toUser, NoCrash);
      NextIsExpected(t.epochs, w.user, t.user, t.userTags, 1, t.userTook, w.admin.sent, t.adminTags, 2, s.toUser);
    }
  }

  lemma AdminGetsNext(c: Config, s: Channel, t: Trail) returns (t': Trail)
    requires FifoInv(c, s, t)
    ensures FifoInv(c, Play(c, s, AdminGets), t')
  {
    hide Carries, Taken, Placed, Stands, SentEnd, AcceptedEnd, SentOk, AcceptedOk, Linked;
    t' := t;
    var w := s.w;
    if s.toAdmin < |w.user.sent| {
      var packet := Signed(w.user.sent[s.toAdmin].env, c.userEd);
      assert OnTheWire(packet.env, w.user.sent) by { assert w.user.sent[s.toAdmin] == Outgoing(packet.env, true); }
      if w.admin.session.None? {
        var e := AdminAnswers(c, w, t, NoCrash);
        t' := AdminStarts(c, w, t, packet, NoCrash);
      } else {
        t' := AdminTakesEntry(c, w, t, s.toAdmin, NoCrash);
        NextIsExpected(t.epochs, w.admin, t.admin, t.adminTags, 2, t.adminTook, w.user.sent, t.userTags, 1, s.toAdmin);
      }
    }
  }

  lemma TurnKeeps(c: Config, s: Channel, t: Trail, turn: Turn) returns (t': Trail)
    requires FifoInv(c, s, t) && Fair(c, s, turn)
    ensures FifoInv(c, Play(c, s, turn), t')
  {
    hide Carries, Taken, Placed, Stands, SentEnd, AcceptedEnd, SentOk, AcceptedOk, Linked;
    match turn
    case UserTypes(text, b, nonce) =>
      if s.w.user.session.None? {
        t' := UserStarts(c, s.w, t, text, b, nonce, NoCrash);
      } else {
        t' := UserContinues(c, s.w, t, text, b, nonce, NoCrash);
      }
    case AdminReplies(text, nonce) => t' := AdminContinues(c, s.w, t, text, nonce, NoCrash);
    case UserGets => t' := UserGetsNext(c, s, t);
    case AdminGets => t' := AdminGetsNext(c, s, t);
  }

  lemma {:induction false} PlayKeeps(c: Config, s: Channel, t: Trail, turns: seq<Turn>) returns (t': Trail)
    requires FifoInv(c, s, t) && FairRun(c, s, turns)
    ensures FifoInv(c, PlayAll(c, s, turns), t')
    decreases |turns|
  {
    t' := t;
    if turns != [] {
      t' := TurnKeeps(c, s, t, turns[0]);
      t' := PlayKeeps(c, Play(c, s, turns[0]), t', turns[1..]);
    }
  }

  /** Entry by entry, what was accepted is what was sealed, opened and shown, with the chain lengths in step. */
  ghost predicate Mirrors(acc: seq<Incoming>, log: seq<Outgoing>, n: nat)
  {
    && |acc| == n <= |log|
    && (forall j :: 0 <= j < n ==> acc[j] == Incoming(log[j].env, log[j].env.ciphertext.plaintext, true))
    && (forall j :: 0 <= j < n ==> InStep(acc, j))
  }

  /** The first message of a new chain announces exactly what was accepted of the previous one. */
  predicate InStep(acc: seq<Incoming>, j: nat)
    requires j < |acc|
  {
    j > 0 && acc[j].env.msgNumber == 0 ==> acc[j].env.prevChainLen == acc[j - 1].env.msgNumber + 1
  }

  lemma TookEntry(e: seq<Epoch>, acc: seq<Incoming>, took: seq<nat>, log: seq<Outgoing>, tags: seq<Tag>, first: nat,
                  n: nat, j: nat)
    requires SentOk(e, log, tags, first) && AcceptedOk(acc, took, log, tags, first) && Counts(took, n) && AllShown(acc)
    requires j < n
    ensures j < |log| && acc[j] == Incoming(log[j].env, log[j].env.ciphertext.plaintext, true) && InStep(acc, j)
  {
    assert Taken(acc, took, log, tags, first, j) && took[j] == j;
    assert Carries(e, log[j].env, tags[j]) && Placed(log, tags, first, j);
    if j > 0 {
      assert Taken(acc, took, log, tags, first, j - 1) && took[j - 1] == j - 1;
      assert Carries(e, log[j - 1].env, tags[j - 1]);
    }
  }

  lemma TookMirrors(e: seq<Epoch>, acc: seq<Incoming>, took: seq<nat>, log: seq<Outgoing>, tags: seq<Tag>, first: nat, n: nat)
    requires SentOk(e, log, tags, first) && AcceptedOk(acc, took, log, tags, first) && Counts(took, n) && AllShown(acc)
    ensures Mirrors(acc, log, n)
  {
    hide Carries, Taken, Placed;
    forall j | 0 <= j < n
      ensures j < |log| && acc[j] == Incoming(log[j].env, log[j].env.ciphertext.plaintext, true) && InStep(acc, j)
    {
      TookEntry(e, acc, took, log, tags, first, n, j);
    }
    if n > 0 {
      TookEntry(e, acc, took, log, tags, first, n, n - 1);
    }
  }

  /**
   Over lossless in-order channels every delivered envelope opens: after any
   interleaving of sends and deliveries, through any number of DH rotations,
   each device has accepted exactly what it was handed, a prefix of what the
   peer sealed, plaintext for plaintext.
   */
  lemma EverythingDeliveredOpens(c: Config, opks: map<int, nat>, next: nat, turns: seq<Turn>)
    requires next > c.spk && FairRun(c, Channel(Initial(opks, next), 0, 0), turns)
    ensures var s := PlayAll(c, Channel(Initial(opks, next), 0, 0), turns);
            && Mirrors(s.w.user.accepted, s.w.admin.sent, s.toUser)
            && Mirrors(s.w.admin.accepted, s.w.user.sent, s.toAdmin)
  {
    var s0 := Channel(Initial(opks, next), 0, 0);
    var t := PlayKeeps(c, s0, Trail([], 0, 0, [], [], [], [], None), turns);
    var s := PlayAll(c, s0, turns);
    if s.w.user.session.Some? {
      TookMirrors(t.epochs, s.w.user.accepted, t.userTook, s.w.admin.sent, t.adminTags, 2, s.toUser);
      if s.w.admin.session.Some? {
        TookMirrors(t.epochs, s.w.admin.accepted, t.adminTook, s.w.user.sent, t.userTags, 1, s.toAdmin);
      }
    }
  }
}
