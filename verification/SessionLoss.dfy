/** What crashes and lost messages cost: exactly when the admin can still be reached within a session. */
module SessionLoss {
  import opened Basics
  import opened Crypto
  import opened Ratchet
  import opened Session
  import opened SessionInvariant
  import opened SessionRuns
  import opened SessionTheorems

  function FirstHeader(w: World): Header
    requires w.user.sent != [] && w.user.sent[0].env.bootstrap.Some?
  {
    w.user.sent[0].env.bootstrap.value
  }

  /** The bootstrap left the device, and the one-time prekey it names, if any, is still in the admin's table. */
  predicate Contactable(w: World)
    requires w.user.sent != [] && w.user.sent[0].env.bootstrap.Some?
  {
    && w.user.sent[0].transmitted
    && (FirstHeader(w).oneTimePrekeyId == 0 || FirstHeader(w).oneTimePrekeyId in w.opks)
  }

  /** What `p` would seal next, as far as a receiver's ratchet looks at it. */
  function NextSeal(p: Party): Env
    requires p.session.Some?
  {
    SealWith(p.session.value, [], [], None, "", 0)
  }

  /** A type-0 envelope that left the peer and that `p` awaits. */
  predicate Waiting(p: Party, log: seq<Outgoing>)
    requires p.session.Some?
  {
    exists i :: 0 <= i < |log| && log[i].transmitted && log[i].env.bootstrap.None? && Awaited(p, log[i].env)
  }

  /** Accepting `env` makes `p` rotate, so that it sends under a new DH key. */
  predicate Rotates(p: Party, env: Env)
    requires p.session.Some?
  {
    Awaited(p, env) && env.ratchetPub != p.session.value.dhRecvPub
  }

  predicate Turning(p: Party, log: seq<Outgoing>)
    requires p.session.Some?
  {
    exists i :: 0 <= i < |log| && log[i].transmitted && log[i].env.bootstrap.None? && Rotates(p, log[i].env)
  }

  /**
   The admin has the user's identity, and it awaits something that left the
   user or that the user seals next, or else the user can be made to rotate by
   something that left the admin or that the admin seals next.
   */
  predicate CanHear(w: World)
    requires w.user.session.Some? && w.admin.session.Some?
  {
    && w.admin.peerEd.Some?
    && (|| Waiting(w.admin, w.user.sent) || Awaited(w.admin, NextSeal(w.user))
        || Turning(w.user, w.admin.sent) || Rotates(w.user, NextSeal(w.admin)))
  }

  /** No step makes the admin accept anything. */
  predicate Deaf(w: World)
  {
    && w.user.session.Some? && w.user.sent != [] && w.user.sent[0].env.bootstrap.Some?
    && (if w.admin.session.None? then !Contactable(w) else FirstHeader(w).oneTimePrekeyId != 0 && !CanHear(w))
  }

  // ---- Once deaf, deaf for the rest of the session --------------------------------

  /** The admin has not counted past what the user sealed under its current key. */
  lemma CountBehind(c: Config, w: World, t: Trail)
    requires Inv(c, w, t) && w.user.session.Some? && w.admin.session.Some?
    requires w.user.session.value.dhSendPub == w.admin.session.value.dhRecvPub
    ensures w.admin.session.value.nRecv <= w.user.session.value.nSend
  {
    hide Carries, Taken, Placed;
    assert t.user == t.admin - 1;
    var last := t.adminTook[|t.adminTook| - 1];
    if last < |t.userTags| - 1 {
      TagsAscend(t.epochs, w.user.sent, t.userTags, 1, last, |t.userTags| - 1);
    }
  }

  lemma UserSendKeepsDeaf(c: Config, w: World, t: Trail, step: Step)
    requires Inv(c, w, t) && Deaf(w) && w.admin.session.Some? && step.UserSend?
    ensures Deaf(Next(c, w, step)) && Next(c, w, step).admin == w.admin
  {
    hide Inv, Facing, AfterRotate, Open;
    var w' := Next(c, w, step);
    assert w'.user.sent[0] == w.user.sent[0];
    if w.admin.peerEd.Some? && !step.crash.BeforeSave? {
      var n := |w.user.sent|;
      assert Awaited(w.admin, w'.user.sent[n].env) <==> Awaited(w.admin, NextSeal(w.user));
      assert !Awaited(w.admin, NextSeal(w'.user)) by {
        if w.user.session.value.dhSendPub == w.admin.session.value.dhRecvPub {
          CountBehind(c, w, t);
        }
        SealsFromZero(c, w, t);
      }
      assert forall i :: 0 <= i < n ==> w'.user.sent[i] == w.user.sent[i];
    }
  }

  lemma SealsFromZero(c: Config, w: World, t: Trail)
    requires Inv(c, w, t)
    ensures w.user.session.Some? ==> w.user.session.value.nSend >= 0
    ensures w.user.session.Some? && w.admin.session.Some? ==> w.admin.session.value.nSend >= 0
  {
  }

  lemma AdminSendKeepsDeaf(c: Config, w: World, t: Trail, step: Step)
    requires Inv(c, w, t) && Deaf(w) && w.admin.session.Some? && step.AdminSend?
    ensures Deaf(Next(c, w, step)) && Next(c, w, step).admin.accepted == w.admin.accepted
  {
    hide Inv, Facing, AfterRotate, Open;
    SealsFromZero(c, w, t);
    var w' := Next(c, w, step);
    if w.admin.peerEd.Some? && !step.crash.BeforeSave? {
      var n := |w.admin.sent|;
      assert Rotates(w.user, w'.admin.sent[n].env) <==> Rotates(w.user, NextSeal(w.admin));
      assert forall i :: 0 <= i < n ==> w'.admin.sent[i] == w.admin.sent[i];
    }
  }

  lemma ToAdminKeepsDeaf(c: Config, w: World, t: Trail, step: Step)
    requires Inv(c, w, t) && Possible(c, w, step) && Deaf(w) && w.admin.session.Some? && step.ToAdmin?
    ensures Deaf(Next(c, w, step)) && Next(c, w, step).admin == w.admin
  {
    hide Carries, Taken, Placed, Stands, SentEnd, AcceptedEnd, SentOk, AcceptedOk, Linked, AfterRotate, AfterRecv, Facing;
    var packet := step.packet;
    if packet.env.bootstrap.Some? {
      assert !Answerable(c, w.opks, packet);
    } else if w.admin.peerEd.Some? && Verify(packet, c.userEd) {
      var i :| 0 <= i < |w.user.sent| && w.user.sent[i] == Outgoing(packet.env, true);
      AdminOpensIff(c, w, t, i, w.next);
    }
  }

  lemma ToUserKeepsDeaf(c: Config, w: World, t: Trail, step: Step)
    requires Inv(c, w, t) && Possible(c, w, step) && Deaf(w) && w.admin.session.Some? && step.ToUser?
    ensures Deaf(Next(c, w, step)) && Next(c, w, step).admin == w.admin
  {
    hide Carries, Taken, Placed, Stands, SentEnd, AcceptedEnd, SentOk, AcceptedOk, Linked, AfterRotate;
    var packet, u' := step.packet, Next(c, w, step).user;
    if u' != w.user && w.admin.peerEd.Some? {
      var i :| 0 <= i < |w.admin.sent| && w.admin.sent[i] == Outgoing(packet.env, true);
      UserOpensIff(c, w, t, i, w.next);
      assert !Rotates(w.user, packet.env);
      assert u'.session.value.dhRecvPub == w.user.session.value.dhRecvPub;
      forall env | Rotates(u', env) ensures Rotates(w.user, env) {
        assert forall j :: 0 <= j < |w.user.accepted| ==> u'.accepted[j] == w.user.accepted[j];
      }
    }
  }

  /** While the admin has no session, only the bootstrap could give it one. */
  lemma UncontactedStaysDeaf(c: Config, w: World, t: Trail, step: Step)
    requires Inv(c, w, t) && Possible(c, w, step) && Deaf(w) && w.admin.session.None?
    ensures Deaf(Next(c, w, step)) && Next(c, w, step).admin == w.admin
  {
    hide Carries, Taken, Placed, Stands, SentEnd, AcceptedEnd, SentOk, AcceptedOk, Linked, AfterRotate, AfterRecv;
    assert step.ToAdmin? && step.packet.env.bootstrap.Some? ==> !Answerable(c, w.opks, step.packet);
  }

  lemma {:induction false} DeafRun(c: Config, w: World, t: Trail, steps: seq<Step>)
    requires Inv(c, w, t) && Deaf(w) && PossibleRun(c, w, steps)
    ensures Run(c, w, steps).admin.accepted == w.admin.accepted
    ensures Run(c, w, steps).admin.session.Some? <==> w.admin.session.Some?
    decreases |steps|
  {
    hide Inv, Deaf, Next, Possible;
    if steps != [] {
      DeafStep(c, w, t, steps[0]);
      var t' := StepKeeps(c, w, t, steps[0]);
      DeafRun(c, Next(c, w, steps[0]), t', steps[1..]);
    }
  }

  lemma DeafStep(c: Config, w: World, t: Trail, step: Step)
    requires Inv(c, w, t) && Deaf(w) && Possible(c, w, step)
    ensures Deaf(Next(c, w, step)) && Next(c, w, step).admin.accepted == w.admin.accepted
    ensures Next(c, w, step).admin.session.Some? <==> w.admin.session.Some?
  {
    hide Inv, Possible, CanHear, Contactable;
    if w.admin.session.None? {
      UncontactedStaysDeaf(c, w, t, step);
    } else {
      hide Deaf, UserReceives, AdminReceives, UserSends;
      match step
      case UserSend(_, _, _, _) => UserSendKeepsDeaf(c, w, t, step);
      case AdminSend(_, _, _) =>
        AdminSendKeepsDeaf(c, w, t, step);
      case ToUser(_, _) => ToUserKeepsDeaf(c, w, t, step);
      case ToAdmin(_, _) => ToAdminKeepsDeaf(c, w, t, step);
    }
  }

  // ---- As long as it can hear, some run gets through --------------------------------

  /** A run in which the admin accepts something new. */
  predicate Reaches(c: Config, w: World, steps: seq<Step>)
  {
    PossibleRun(c, w, steps) && Run(c, w, steps).admin.accepted != w.admin.accepted
  }

  lemma ReachesAfter(c: Config, w: World, step: Step, steps: seq<Step>)
    requires Possible(c, w, step) && Reaches(c, Next(c, w, step), steps)
    requires Next(c, w, step).admin.accepted == w.admin.accepted
    ensures Reaches(c, w, [step] + steps)
  {
    hide Next, Possible;
    assert ([step] + steps)[1..] == steps;
  }

  lemma WaitingGetsThrough(c: Config, w: World, t: Trail) returns (steps: seq<Step>)
    requires Inv(c, w, t) && w.user.session.Some? && w.admin.session.Some? && w.admin.peerEd.Some?
    requires Waiting(w.admin, w.user.sent)
    ensures Reaches(c, w, steps)
  {
    hide Carries, Taken, Placed, Stands, SentEnd, AcceptedEnd, SentOk, AcceptedOk, Linked, AfterRecv, Facing, RecvKey, Awaited;
    var i :| 0 <= i < |w.user.sent| && w.user.sent[i].transmitted && w.user.sent[i].env.bootstrap.None?
             && Awaited(w.admin, w.user.sent[i].env);
    var env := w.user.sent[i].env;
    var step := ToAdmin(Signed(env, c.userEd), NoCrash);
    assert OnTheWire(env, w.user.sent) by { assert w.user.sent[i] == Outgoing(env, true); }
    AdminOpensIff(c, w, t, i, w.next);
    steps := [step];
    var w' := Next(c, w, step);
    assert w'.admin.accepted == w.admin.accepted + [Incoming(env, env.ciphertext.plaintext, true)];
    assert steps[1..] == [] && PossibleRun(c, w', []) && Run(c, w', []) == w';
  }

  /** Who it is for and what it says makes no difference to whether an envelope is awaited. */
  lemma SameSeal(p: Party, r: State, sender: Bytes, recipient: Bytes)
    requires p.session.Some?
    ensures Awaited(p, SealWith(r, sender, recipient, None, "", 0)) == Awaited(p, SealWith(r, [], [], None, "", 0))
  {
  }

  /** The admin's own bundle, without a one-time prekey. */
  function PlainBundle(c: Config): Bundle
  {
    Bundle(c.adminEd, Pub(c.adminX), c.spkId, Pub(c.spk), c.adminEd, Pub(c.spk), None)
  }

  lemma NextGetsThrough(c: Config, w: World, t: Trail) returns (steps: seq<Step>)
    requires Inv(c, w, t) && w.user.session.Some? && w.admin.session.Some? && w.admin.peerEd.Some?
    requires Awaited(w.admin, NextSeal(w.user))
    ensures Reaches(c, w, steps)
  {
    hide Inv, Reaches, Facing, Awaited;
    var step := UserSend("", PlainBundle(c), 0, NoCrash);
    var w' := Next(c, w, step);
    var t' := StepKeeps(c, w, t, step);
    assert Waiting(w'.admin, w'.user.sent) by {
      SameSeal(w.admin, w.user.session.value, c.userDev, c.adminDev);
      var n := |w.user.sent|;
      assert w'.user.sent[n].transmitted && Awaited(w'.admin, w'.user.sent[n].env);
    }
    steps := WaitingGetsThrough(c, w', t');
    ReachesAfter(c, w, step, steps);
    steps := [step] + steps;
  }

  /** Everything the admin accepted was sent under a key made before now. */
  lemma AcceptedKeysAreOld(c: Config, w: World, t: Trail, j: nat)
    requires Inv(c, w, t) && w.user.session.Some? && w.admin.session.Some? && j < |w.admin.accepted|
    ensures w.admin.accepted[j].env.ratchetPub != Pub(w.next)
  {
    var i := t.adminTook[j];
    assert Taken(w.admin.accepted, t.adminTook, w.user.sent, t.userTags, 1, j) && Carries(t.epochs, w.user.sent[i].env, t.userTags[i]);
    if t.userTags[i].epoch < |t.epochs| - 1 {
      ScalarsIncrease(t.epochs, t.userTags[i].epoch, |t.epochs| - 1);
    }
  }

  lemma TurningGetsThrough(c: Config, w: World, t: Trail) returns (steps: seq<Step>)
    requires Inv(c, w, t) && w.user.session.Some? && w.admin.session.Some? && w.admin.peerEd.Some?
    requires Turning(w.user, w.admin.sent)
    ensures Reaches(c, w, steps)
  {
    hide Carries, Taken, Placed, Stands, SentEnd, AcceptedEnd, SentOk, AcceptedOk, Linked;
    var i :| 0 <= i < |w.admin.sent| && w.admin.sent[i].transmitted && w.admin.sent[i].env.bootstrap.None?
             && Rotates(w.user, w.admin.sent[i].env);
    var env := w.admin.sent[i].env;
    var step := ToUser(Signed(env, c.adminEd), NoCrash);
    assert OnTheWire(env, w.admin.sent) by { assert w.admin.sent[i] == Outgoing(env, true); }
    UserOpensIff(c, w, t, i, w.next);
    var w' := Next(c, w, step);
    var t' := StepKeeps(c, w, t, step);
    assert w'.user.session == Some(AfterRecv(AfterRotate(w.user.session.value, env.ratchetPub, w.next)));
    assert Awaited(w'.admin, NextSeal(w'.user)) by {
      forall j | 0 <= j < |w.admin.accepted| ensures w.admin.accepted[j].env.ratchetPub != Pub(w.next) {
        AcceptedKeysAreOld(c, w, t, j);
      }
    }
    steps := NextGetsThrough(c, w', t');
    ReachesAfter(c, w, step, steps);
    steps := [step] + steps;
  }

  lemma ReplyGetsThrough(c: Config, w: World, t: Trail) returns (steps: seq<Step>)
    requires Inv(c, w, t) && w.user.session.Some? && w.admin.session.Some? && w.admin.peerEd.Some?
    requires Rotates(w.user, NextSeal(w.admin))
    ensures Reaches(c, w, steps)
  {
    hide Inv, Reaches, Facing, Awaited;
    var step := AdminSend("", 0, NoCrash);
    var w' := Next(c, w, step);
    var t' := StepKeeps(c, w, t, step);
    assert Turning(w'.user, w'.admin.sent) by {
      SameSeal(w.user, w.admin.session.value, c.adminDev, c.userDev);
      var n := |w.admin.sent|;
      assert w'.admin.sent[n].transmitted && Rotates(w'.user, w'.admin.sent[n].env);
    }
    steps := TurningGetsThrough(c, w', t');
    ReachesAfter(c, w, step, steps);
    steps := [step] + steps;
  }

  lemma SomeRunGetsThrough(c: Config, w: World, t: Trail) returns (steps: seq<Step>)
    requires Inv(c, w, t) && w.user.session.Some? && w.admin.session.Some? && CanHear(w)
    ensures Reaches(c, w, steps)
  {
    hide Inv, Waiting, Awaited, Turning, Rotates, Reaches;
    if Waiting(w.admin, w.user.sent) {
      steps := WaitingGetsThrough(c, w, t);
    } else if Awaited(w.admin, NextSeal(w.user)) {
      steps := NextGetsThrough(c, w, t);
    } else if Turning(w.user, w.admin.sent) {
      steps := TurningGetsThrough(c, w, t);
    } else {
      steps := ReplyGetsThrough(c, w, t);
    }
  }

  // ---- The results ------------------------------------------------------------

  /**
   The admin can still come to hold a session if and only if the bootstrap got
   out and its one-time prekey is still there. A crash of the user between save
   and send, or of the admin between consuming the prekey and saving, ends it
   for as long as the user keeps its stored session.
   */
  lemma FirstContactIff(c: Config, w: World)
    requires Reachable(c, w) && w.user.session.Some? && w.admin.session.None?
    ensures w.user.sent != [] && w.user.sent[0].env.bootstrap.Some?
    ensures (exists steps :: PossibleRun(c, w, steps) && Run(c, w, steps).admin.session.Some?) <==> Contactable(w)
  {
    hide Carries, Taken, Placed, Stands, SentEnd, AcceptedEnd, SentOk, AcceptedOk, Linked, AfterRotate, AfterRecv, RecvKey;
    var t := ReachableInv(c, w);
    if Contactable(w) {
      var env := w.user.sent[0].env;
      var step := ToAdmin(Signed(env, c.userEd), NoCrash);
      assert OnTheWire(env, w.user.sent) by { assert w.user.sent[0] == Outgoing(env, true); }
      var e := AdminAnswers(c, w, t, NoCrash);
      var w' := Next(c, w, step);
      assert Answerable(c, w.opks, step.packet) && w'.admin.session.Some?;
      assert [step][1..] == [];
      assert PossibleRun(c, w', []) && Run(c, w', []) == w';
      assert PossibleRun(c, w, [step]) && Run(c, w, [step]).admin.session.Some?;
      assert exists steps :: PossibleRun(c, w, steps) && Run(c, w, steps).admin.session.Some?;
    } else {
      forall steps | PossibleRun(c, w, steps) ensures Run(c, w, steps).admin.session.None? {
        DeafRun(c, w, t, steps);
      }
      assert !(exists steps :: PossibleRun(c, w, steps) && Run(c, w, steps).admin.session.Some?);
    }
  }

  /**
   Within a session that a bootstrap with a one-time prekey started, some
   continuation makes the admin accept another message if and only if `CanHear`
   holds now. In particular a crash between saving the first ratchet and caching
   the user's identity deafens the admin, until the user drops its stored
   session and bootstraps again.
   */
  lemma StillHearsIff(c: Config, w: World)
    requires Reachable(c, w) && w.user.session.Some? && w.admin.session.Some?
    requires w.user.sent != [] && w.user.sent[0].env.bootstrap.Some? && FirstHeader(w).oneTimePrekeyId != 0
    ensures (exists steps :: Reaches(c, w, steps)) <==> CanHear(w)
  {
    hide Inv, CanHear, PossibleRun, Run;
    var t := ReachableInv(c, w);
    if CanHear(w) {
      var steps := SomeRunGetsThrough(c, w, t);
    } else {
      forall steps | PossibleRun(c, w, steps) ensures !Reaches(c, w, steps) {
        DeafRun(c, w, t, steps);
      }
    }
  }

  /** The case of the crash alone: nothing more is accepted as long as the user keeps its session. */
  lemma UncachedIdentityIsFinal(c: Config, w: World, steps: seq<Step>)
    requires Reachable(c, w) && w.admin.session.Some? && w.admin.peerEd.None? && PossibleRun(c, w, steps)
    requires w.user.sent != [] && w.user.sent[0].env.bootstrap.Some? && FirstHeader(w).oneTimePrekeyId != 0
    ensures Run(c, w, steps).admin.accepted == w.admin.accepted
  {
    hide Carries, Taken, Placed, Stands, SentEnd, AcceptedEnd, SentOk, AcceptedOk, Linked;
    var t := ReachableInv(c, w);
    DeafRun(c, w, t, steps);
  }
}
