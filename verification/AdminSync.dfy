/**
 backend/internal/api/admin_sync.go and the sweeps of
 backend/internal/retention/worker.go that touch its tables: the outbound queue
 and the plaintext mirror.
 */
module AdminSync {
  import opened Basics
  import opened GoText

  datatype Status = Pending | Sent | Failed

  datatype Direction = Inbound | Outbound

  /** A row of messages with the owners of its two devices. */
  datatype Message = Message(
    conversation: string, createdAt: int,
    senderIsAdmin: bool, senderOwner: string, recipientIsAdmin: bool, recipientOwner: string)

  /** A row of admin_plaintext. */
  datatype Mirror = Mirror(conversation: string, direction: Direction, body: Text, createdAt: int, decryptedAt: int)

  /** A row of admin_outbound_queue. */
  datatype Item = Item(
    user: string, admin: string, body: Text, status: Status,
    serverMessage: Option<string>, lastError: Text, createdAt: int, sentAt: Option<int>)

  datatype Db = Db(users: set<string>, messages: map<string, Message>, mirror: map<string, Mirror>, queue: map<string, Item>)

  datatype Reply =
    | NoClaims | MissingFields | BodyTooLarge | UnknownMessage | NotParticipant | UserUnknown | DbError
    | Ok_ | PendingItem(id: string) | AckFailed | AckSent | AckNoop

  const HOUR: int := 3600
  const DAY: int := 24 * HOUR

  // ---- Handlers ---------------------------------------------------------------

  predicate Involves(m: Message, owner: string)
  {
    (m.senderIsAdmin && m.senderOwner == owner) || (m.recipientIsAdmin && m.recipientOwner == owner)
  }

  function DirectionOf(m: Message): Direction { if m.recipientIsAdmin then Inbound else Outbound }

  /** INSERT ... SELECT FROM messages ... ON CONFLICT (message_id) DO NOTHING. */
  function InsertMirror(d: Db, id: string, dir: Direction, body: Text, now: int): Db
  {
    if id in d.mirror || id !in d.messages then d
    else d.(mirror := d.mirror[id := Mirror(d.messages[id].conversation, dir, body, d.messages[id].createdAt, now)])
  }

  function PostInbound(d: Db, owner: string, id: string, body: Text, now: int): (Db, Reply)
  {
    if owner == "" then (d, NoClaims)
    else if id == "" || body == [] then (d, MissingFields)
    else if |body| > 64 * 1024 then (d, BodyTooLarge)
    else if id !in d.messages then (d, UnknownMessage)
    else if !Involves(d.messages[id], owner) then (d, NotParticipant)
    else if !Storable(body) then (d, DbError)
    else (InsertMirror(d, id, DirectionOf(d.messages[id]), body, now), Ok_)
  }

  /** `id` is the random queue id. */
  function Enqueue(d: Db, owner: string, user: string, typed: Text, id: string, now: int): (Db, Reply)
  {
    var body := TrimSpace(typed);
    if owner == "" then (d, NoClaims)
    else if user == "" || body == [] then (d, MissingFields)
    else if |body| > 16 * 1024 then (d, BodyTooLarge)
    else if user !in d.users then (d, UserUnknown)
    else if id in d.queue || !Storable(body) then (d, DbError)
    else (d.(queue := d.queue[id := Item(user, owner, body, Pending, None, [], now, None)]), PendingItem(id))
  }

  predicate IsPending(d: Db, id: string) { id in d.queue && d.queue[id].status == Pending }

  /** With an error the row is stamped failed; without one it is stamped sent, and mirrored when the message is known. */
  function Ack(d: Db, id: string, serverMessage: string, error: Text, now: int): (Db, Reply)
  {
    if id == "" then (d, MissingFields)
    else if error != [] then
      if !Storable(Truncate(error, 1024)) then (d, DbError)
      else
        (if IsPending(d, id)
         then d.(queue := d.queue[id := d.queue[id].(status := Failed, lastError := Truncate(error, 1024))]) else d,
         AckFailed)
    else if !IsPending(d, id) then (d, AckNoop)
    else if serverMessage != "" && serverMessage !in d.messages then (d, DbError)      // foreign key
    else
      var link := if serverMessage == "" then None else Some(serverMessage);
      var d1 := d.(queue := d.queue[id := d.queue[id].(status := Sent, sentAt := Some(now), serverMessage := link)]);
      (if serverMessage == "" then d1 else InsertMirror(d1, serverMessage, Outbound, d.queue[id].body, now), AckSent)
  }

  // ---- Sweeps -----------------------------------------------------------------

  /** The mirror cascades with its message; a queue row loses its link. */
  function PurgeMessages(d: Db, ttl: int, now: int): Db
  {
    var gone := set id | id in d.messages && d.messages[id].createdAt < now - ttl;
    d.(messages := d.messages - gone, mirror := d.mirror - gone,
       queue := map q | q in d.queue ::
         if d.queue[q].serverMessage.Some? && d.queue[q].serverMessage.value in gone
         then d.queue[q].(serverMessage := None) else d.queue[q])
  }

  /** COALESCE(sent_at, created_at): a failed row has no sent_at. */
  function Stamp(i: Item): int { if i.sentAt.Some? then i.sentAt.value else i.createdAt }

  predicate Reapable(i: Item, now: int)
  {
    i.status != Pending && Stamp(i) < now - 24 * HOUR
  }

  function PurgeAdminSync(d: Db, now: int): Db
  {
    d.(mirror := map id | id in d.mirror && d.mirror[id].decryptedAt >= now - 30 * DAY :: d.mirror[id],
       queue := map q | q in d.queue && !Reapable(d.queue[q], now) :: d.queue[q])
  }

  datatype Step =
    | Arrive(id: string, m: Message)
    | DoInbound(owner: string, id: string, body: Text, now: int)
    | DoEnqueue(owner: string, user: string, typed: Text, id: string, now: int)
    | DoAck(id: string, serverMessage: string, error: Text, now: int)
    | DoPurgeMessages(ttl: int, now: int)
    | DoPurgeAdminSync(now: int)

  function Do(d: Db, step: Step): Db
  {
    match step
    case Arrive(id, m) => if id in d.messages then d else d.(messages := d.messages[id := m])
    case DoInbound(owner, id, body, now) => PostInbound(d, owner, id, body, now).0
    case DoEnqueue(owner, user, typed, id, now) => Enqueue(d, owner, user, typed, id, now).0
    case DoAck(id, sm, error, now) => Ack(d, id, sm, error, now).0
    case DoPurgeMessages(ttl, now) => PurgeMessages(d, ttl, now)
    case DoPurgeAdminSync(now) => PurgeAdminSync(d, now)
  }

  function After(d: Db, steps: seq<Step>, n: nat): Db
    requires n <= |steps|
  {
    if n == 0 then d else Do(After(d, steps, n - 1), steps[n - 1])
  }

  // ---- What every run keeps -------------------------------------------------------

  /** Every mirror row has a live message and agrees with it; only sent rows have a send time; links point to live messages. */
  predicate Consistent(d: Db)
  {
    && (forall id :: id in d.mirror ==>
          && id in d.messages
          && d.mirror[id].conversation == d.messages[id].conversation
          && d.mirror[id].createdAt == d.messages[id].createdAt)
    && (forall q :: q in d.queue ==>
          && (d.queue[q].sentAt.Some? <==> d.queue[q].status == Sent)
          && (d.queue[q].serverMessage.Some? ==> d.queue[q].serverMessage.value in d.messages))
  }

  predicate SameMirror(d: Db, d': Db, id: string)
  {
    id in d.mirror && id in d'.mirror ==> d'.mirror[id] == d.mirror[id]
  }

  /** Who wrote what never changes; a terminal row keeps status, error and send time; a pending one stays in the queue. */
  predicate SameItem(d: Db, d': Db, q: string)
  {
    q in d.queue ==>
      var i := d.queue[q];
      && (i.status == Pending ==> q in d'.queue)
      && (q in d'.queue ==>
            var i' := d'.queue[q];
            && (i'.user, i'.admin, i'.body, i'.createdAt) == (i.user, i.admin, i.body, i.createdAt)
            && (i.status != Pending ==> (i'.status, i'.lastError, i'.sentAt) == (i.status, i.lastError, i.sentAt)))
  }

  lemma AckKeeps(d: Db, q: string, serverMessage: string, error: Text, now: int, id: string)
    requires Consistent(d)
    ensures var d' := Ack(d, q, serverMessage, error, now).0;
            Consistent(d') && SameMirror(d, d', id) && SameItem(d, d', id)
  {
    hide Storable, Truncate;
  }

  lemma SweepsKeep(d: Db, ttl: int, now: int, id: string)
    requires Consistent(d)
    ensures var d' := PurgeMessages(d, ttl, now); Consistent(d') && SameMirror(d, d', id) && SameItem(d, d', id)
    ensures var d' := PurgeAdminSync(d, now); Consistent(d') && SameMirror(d, d', id) && SameItem(d, d', id)
  {
  }

  lemma PostsKeep(d: Db, owner: string, id: string, body: Text, now: int, x: string)
    requires Consistent(d)
    ensures var d' := PostInbound(d, owner, id, body, now).0; Consistent(d') && SameMirror(d, d', x) && SameItem(d, d', x)
  {
    hide Storable;
  }

  lemma EnqueueKeeps(d: Db, owner: string, user: string, typed: Text, id: string, now: int, x: string)
    requires Consistent(d)
    ensures var d' := Enqueue(d, owner, user, typed, id, now).0; Consistent(d') && SameMirror(d, d', x) && SameItem(d, d', x)
  {
    hide Storable, TrimSpace;
  }

  lemma StepKeeps(d: Db, step: Step, id: string)
    requires Consistent(d)
    ensures Consistent(Do(d, step)) && SameMirror(d, Do(d, step), id) && SameItem(d, Do(d, step), id)
  {
    hide Ack, PurgeMessages, PurgeAdminSync, PostInbound, Enqueue;
    match step
    case Arrive(_, _) =>
    case DoInbound(owner, x, body, now) => PostsKeep(d, owner, x, body, now, id);
    case DoEnqueue(owner, user, typed, x, now) => EnqueueKeeps(d, owner, user, typed, x, now, id);
    case DoAck(q, sm, error, now) => AckKeeps(d, q, sm, error, now, id);
    case DoPurgeMessages(ttl, now) => SweepsKeep(d, ttl, now, id);
    case DoPurgeAdminSync(now) => SweepsKeep(d, 0, now, id);
  }

  lemma {:induction false} RunIsConsistent(d: Db, steps: seq<Step>, n: nat)
    requires Consistent(d) && n <= |steps|
    ensures Consistent(After(d, steps, n))
  {
    if n > 0 {
      hide Do;
      RunIsConsistent(d, steps, n - 1);
      StepKeeps(After(d, steps, n - 1), steps[n - 1], "");
    }
  }

  lemma StepOfRun(d: Db, steps: seq<Step>, id: string, k: nat)
    requires Consistent(d) && k < |steps|
    ensures SameMirror(After(d, steps, k), After(d, steps, k + 1), id)
    ensures SameItem(After(d, steps, k), After(d, steps, k + 1), id)
  {
    hide Do, Consistent, SameMirror, SameItem;
    RunIsConsistent(d, steps, k);
    StepKeeps(After(d, steps, k), steps[k], id);
  }

  predicate InMirror(d: Db, id: string) { id in d.mirror }

  predicate InQueue(d: Db, q: string) { q in d.queue }

  /** While a mirror row lives, no later post, acknowledgement or sweep changes any part of it. */
  lemma {:induction false} MirrorIsNeverRewritten(d: Db, steps: seq<Step>, id: string, i: nat, j: nat)
    requires Consistent(d) && i <= j <= |steps|
    requires forall k :: i <= k <= j ==> InMirror(After(d, steps, k), id)
    ensures InMirror(After(d, steps, i), id) && InMirror(After(d, steps, j), id)
    ensures After(d, steps, j).mirror[id] == After(d, steps, i).mirror[id]
    decreases j
  {
    hide After, Consistent;
    if i < j {
      MirrorIsNeverRewritten(d, steps, id, i, j - 1);
      StepOfRun(d, steps, id, j - 1);
      assert InMirror(After(d, steps, j - 1), id);
    }
  }

  /** While a queue row lives its body stays, and once terminal its status, error and send time stay too. */
  lemma {:induction false} ItemsAreStable(d: Db, steps: seq<Step>, q: string, i: nat, j: nat)
    requires Consistent(d) && i <= j <= |steps|
    requires forall k :: i <= k <= j ==> InQueue(After(d, steps, k), q)
    ensures SameItem(After(d, steps, i), After(d, steps, j), q)
    decreases j
  {
    hide After, Consistent;
    if i < j {
      ItemsAreStable(d, steps, q, i, j - 1);
      StepOfRun(d, steps, q, j - 1);
      assert InQueue(After(d, steps, j - 1), q);
    }
  }

  lemma PendingStep(d: Db, step: Step, q: string)
    requires IsPending(d, q) && !(step.DoAck? && step.id == q)
    ensures IsPending(Do(d, step), q)
  {
    hide PostInbound;
    if step.DoInbound? {
      InboundKeepsQueue(d, step.owner, step.id, step.body, step.now);
    }
  }

  lemma InboundKeepsQueue(d: Db, owner: string, id: string, body: Text, now: int)
    ensures PostInbound(d, owner, id, body, now).0.queue == d.queue
  {
  }

  /** A row leaves the queue only in a terminal state: a pending one is still there after any number of sweeps. */
  lemma {:induction false} PendingIsNeverSwept(d: Db, steps: seq<Step>, q: string, i: nat, j: nat)
    requires i <= j <= |steps| && IsPending(After(d, steps, i), q)
    requires forall k :: i <= k < j ==> !(steps[k].DoAck? && steps[k].id == q)
    ensures IsPending(After(d, steps, j), q)
    decreases j
  {
    if i < j {
      PendingIsNeverSwept(d, steps, q, i, j - 1);
      hide Do;
      PendingStep(After(d, steps, j - 1), steps[j - 1], q);
    }
  }

  /** What is queued is the typed text without the white space around it, and never blank. */
  lemma QueuedAsTyped(d: Db, owner: string, user: string, typed: Text, id: string, now: int)
    returns (a: Text, body: Text, b: Text)
    requires Enqueue(d, owner, user, typed, id, now).1.PendingItem?
    ensures Enqueue(d, owner, user, typed, id, now).0
         == d.(queue := d.queue[id := Item(user, owner, body, Pending, None, [], now, None)])
    ensures typed == a + body + b && Blank(a) && Blank(b)
    ensures body != [] && SpaceAtStart(body) == 0 && SpaceAtEnd(body) == 0
  {
    hide TrimSpace, Blank, Storable, SpaceAtStart, SpaceAtEnd;
    a, b := TrimSpaceSplits(typed);
    body := TrimSpace(typed);
  }

  // ---- How long a terminal row stays ----------------------------------------------

  predicate Enqueues(step: Step, q: string) { step.DoEnqueue? && step.id == q }

  predicate SweepsAfter(step: Step, deadline: int) { step.DoPurgeAdminSync? && step.now > deadline }

  lemma TerminalStep(d: Db, step: Step, q: string)
    requires !IsPending(d, q) && !Enqueues(step, q) && Consistent(d)
    ensures q in Do(d, step).queue <==> q in d.queue && !SweepsAfter(step, Stamp(d.queue[q]) + 86400)
    ensures q in Do(d, step).queue ==>
              Do(d, step).queue[q].status == d.queue[q].status && Stamp(Do(d, step).queue[q]) == Stamp(d.queue[q])
  {
    hide PostInbound, TrimSpace, Storable, Truncate;
    StepKeeps(d, step, q);
    if step.DoInbound? {
      InboundKeepsQueue(d, step.owner, step.id, step.body, step.now);
    }
  }

  /**
   Whatever else happens, a terminal row is in the queue until the first sweep
   more than 24 hours after its stamp: when it was sent, or else when it was
   created. Queue ids are random and not given out twice.
   */
  lemma {:induction false} TerminalTailIff(d: Db, steps: seq<Step>, q: string, i: nat, j: nat)
    requires Consistent(d) && i <= j <= |steps|
    requires q in After(d, steps, i).queue && !IsPending(After(d, steps, i), q)
    requires forall k :: i <= k < j ==> !Enqueues(steps[k], q)
    ensures var item := After(d, steps, i).queue[q];
            && (q in After(d, steps, j).queue <==> forall k :: i <= k < j ==> !SweepsAfter(steps[k], Stamp(item) + 86400))
            && (q in After(d, steps, j).queue ==>
                  After(d, steps, j).queue[q].status == item.status && Stamp(After(d, steps, j).queue[q]) == Stamp(item))
    decreases j
  {
    hide Do, SweepsAfter, Enqueues, Stamp;
    if i < j {
      TerminalTailIff(d, steps, q, i, j - 1);
      RunIsConsistent(d, steps, j - 1);
      TerminalStep(After(d, steps, j - 1), steps[j - 1], q);
    }
  }

  lemma SentIsStamped(d: Db, steps: seq<Step>, i: nat, q: string, serverMessage: string, now: int)
    requires i < |steps| && steps[i] == DoAck(q, serverMessage, [], now)
    requires Ack(After(d, steps, i), q, serverMessage, [], now).1 == AckSent
    ensures var d' := After(d, steps, i + 1);
            q in d'.queue && d'.queue[q].status == Sent && Stamp(d'.queue[q]) == now
  {
  }

  /** A row acknowledged as sent survives exactly the runs whose sweeps all come within 24 hours of that. */
  lemma SentTail(d: Db, steps: seq<Step>, q: string, serverMessage: string, now: int, i: nat, j: nat)
    requires Consistent(d) && i < j <= |steps| && steps[i] == DoAck(q, serverMessage, [], now)
    requires Ack(After(d, steps, i), q, serverMessage, [], now).1 == AckSent
    requires forall k :: i < k < j ==> !Enqueues(steps[k], q)
    ensures q in After(d, steps, j).queue <==> forall k :: i < k < j ==> !SweepsAfter(steps[k], now + 86400)
    ensures q in After(d, steps, j).queue ==> After(d, steps, j).queue[q].status == Sent
  {
    hide Ack, SweepsAfter, Enqueues, Consistent, After;
    SentIsStamped(d, steps, i, q, serverMessage, now);
    TerminalTailIff(d, steps, q, i + 1, j);
  }

  /** Every sweep of `steps` falls between `from` and `to`, and `q` is not given out again. */
  predicate SweptBetween(steps: seq<Step>, q: string, from: int, to: int)
  {
    forall k :: 0 <= k < |steps| ==>
                  !Enqueues(steps[k], q) && (steps[k].DoPurgeAdminSync? ==> from <= steps[k].now <= to)
  }

  /**
   The promise of 24 hours in a terminal state, over every continuation, holds
   for a failed row if and only if it was not queued before the failure: the
   age of a failed row is counted from its creation.
   */
  lemma FailedTailIff(d: Db, q: string, serverMessage: string, error: Text, now: int)
    requires Consistent(d) && q != "" && error != [] && IsPending(d, q)
    requires Ack(d, q, serverMessage, error, now).1 == AckFailed
    ensures var d' := Ack(d, q, serverMessage, error, now).0;
            (forall steps :: SweptBetween(steps, q, now, now + 86400) ==> q in After(d', steps, |steps|).queue)
              <==> d.queue[q].createdAt >= now
  {
    var d' := Ack(d, q, serverMessage, error, now).0;
    AckKeeps(d, q, serverMessage, error, now, q);
    assert d'.queue[q].status == Failed && Stamp(d'.queue[q]) == d.queue[q].createdAt;
    hide Ack, Do, Consistent;
    if d.queue[q].createdAt >= now {
      forall steps | SweptBetween(steps, q, now, now + 86400) ensures q in After(d', steps, |steps|).queue {
        TerminalTailIff(d', steps, q, 0, |steps|);
      }
    } else {
      var steps := [DoPurgeAdminSync(now + 86400)];
      TerminalTailIff(d', steps, q, 0, 1);
      assert SweepsAfter(steps[0], Stamp(d'.queue[q]) + 86400);
      assert SweptBetween(steps, q, now, now + 86400) && q !in After(d', steps, |steps|).queue;
    }
  }

  /** For instance: queued 25 hours before the failure, gone with the first sweep. */
  lemma FailedRowGoneAtOnce()
    ensures var i := Item("usr", "adm", [0x68, 0x69], Pending, None, [], 0, None);
            var d := Db({"usr"}, map[], map[], map["oqu" := i]);
            "oqu" !in PurgeAdminSync(Ack(d, "oqu", "", [0x65], 90000).0, 90000).queue
  {
    var i := Item("usr", "adm", [0x68, 0x69], Pending, None, [], 0, None);
    var d := Db({"usr"}, map[], map[], map["oqu" := i]);
    assert Storable([0x65]);
    assert Ack(d, "oqu", "", [0x65], 90000).0.queue["oqu"].status == Failed;
  }

  /**
   A failure is recorded if and only if what is kept of its message has no zero
   character and the cut at 1024 bytes does not fall inside a character;
   otherwise the database refuses the text and the row stays pending. Decoded
   JSON is UTF-8.
   */
  lemma FailureRecordedIff(d: Db, q: string, serverMessage: string, error: Text, now: int)
    requires q != "" && error != [] && Utf8(error) && IsPending(d, q)
    ensures var (d', r) := Ack(d, q, serverMessage, error, now);
            && (r == AckFailed <==> 0 !in Truncate(error, 1024) && (|error| <= 1024 || !Continues(error[1024])))
            && (r == AckFailed ==>
                  d' == d.(queue := d.queue[q := d.queue[q].(status := Failed, lastError := if |error| > 1024 then error[..1024] else error)]))
            && (r != AckFailed ==> d' == d)
  {
    if |error| > 1024 {
      CutIff(error, 1024);
    }
  }

  /** A message that is not recorded because of the cut, though the database would take all of it. */
  lemma CutMessageIsLost(d: Db, q: string, serverMessage: string, now: int)
    requires q != "" && IsPending(d, q)
    ensures Storable(TwoByteEnd(1023)) && Ack(d, q, serverMessage, TwoByteEnd(1023), now) == (d, DbError)
  {
    TwoByteEndIsText(1023);
    hide TwoByteEnd;
    FailureRecordedIff(d, q, serverMessage, TwoByteEnd(1023), now);
    hide Storable, Truncate;
  }

  /** And one that is not recorded because of a zero character. */
  lemma ZeroMessageIsLost(d: Db, q: string, serverMessage: string, now: int)
    requires q != "" && IsPending(d, q)
    ensures Utf8([0]) && Ack(d, q, serverMessage, [0], now) == (d, DbError)
  {
    FailureRecordedIff(d, q, serverMessage, [0], now);
  }

  // ---- The handlers over the stored tables ------------------------------------------

  class SyncStore {
    var db: Db

    constructor (d: Db)
      ensures db == d
    {
      db := d;
    }

    method AdminSyncInbound(owner: string, id: string, body: Text, now: int) returns (r: Reply)
      modifies this
      ensures (db, r) == PostInbound(old(db), owner, id, body, now)
    {
      if owner == "" { return NoClaims; }
      if id == "" || body == [] { return MissingFields; }
      if |body| > 64 * 1024 { return BodyTooLarge; }
      if id !in db.messages { return UnknownMessage; }
      var m := db.messages[id];
      var direction := if m.recipientIsAdmin then Inbound else Outbound;
      if !Involves(m, owner) { return NotParticipant; }
      if !Storable(body) { return DbError; }
      if id !in db.mirror {
        db := db.(mirror := db.mirror[id := Mirror(m.conversation, direction, body, m.createdAt, now)]);
      }
      return Ok_;
    }

    method AdminSyncOutboundEnqueue(owner: string, user: string, typed: Text, id: string, now: int) returns (r: Reply)
      modifies this
      ensures (db, r) == Enqueue(old(db), owner, user, typed, id, now)
    {
      if owner == "" { return NoClaims; }
      var body := TrimSpace(typed);
      if user == "" || body == [] { return MissingFields; }
      if |body| > 16 * 1024 { return BodyTooLarge; }
      if user !in db.users { return UserUnknown; }
      if id in db.queue || !Storable(body) { return DbError; }
      db := db.(queue := db.queue[id := Item(user, owner, body, Pending, None, [], now, None)]);
      return PendingItem(id);
    }

    /** A transaction: nothing is written when the second statement fails. */
    method AdminSyncOutboundAck(id: string, serverMessage: string, error: Text, now: int) returns (r: Reply)
      modifies this
      ensures (db, r) == Ack(old(db), id, serverMessage, error, now)
    {
      if id == "" { return MissingFields; }
      if error != [] {
        if !Storable(Truncate(error, 1024)) { return DbError; }
        if id in db.queue && db.queue[id].status == Pending {
          var failed := db.queue[id].(status := Failed, lastError := Truncate(error, 1024));
          db := db.(queue := db.queue[id := failed]);
        }
        return AckFailed;
      }
      if id !in db.queue || db.queue[id].status != Pending { return AckNoop; }
      var body := db.queue[id].body;
      var link: Option<string> := None;
      if serverMessage != "" {
        if serverMessage !in db.messages { return DbError; }
        link := Some(serverMessage);
      }
      db := db.(queue := db.queue[id := db.queue[id].(status := Sent, sentAt := Some(now), serverMessage := link)]);
      if serverMessage != "" && serverMessage !in db.mirror {
        var m := db.messages[serverMessage];
        db := db.(mirror := db.mirror[serverMessage := Mirror(m.conversation, Outbound, body, m.createdAt, now)]);
      }
      return AckSent;
    }
  }
}
