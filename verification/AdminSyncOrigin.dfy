/** Where the rows of the mirror and the queue come from, and how long they and the messages stay. */
module AdminSyncOrigin {
  import opened Basics
  import opened GoText
  import opened AdminSync

  // ---- One call -----------------------------------------------------------------

  /** An admin at one end of the message; a user with the same owner id is not one. */
  predicate AdminAtAnEnd(m: Message, owner: string)
  {
    || (m.senderIsAdmin && m.senderOwner == owner)
    || (m.recipientIsAdmin && m.recipientOwner == owner)
  }

  /** A post is taken exactly from an admin at one end of a known message, with a body of 1 to 65536 bytes of text. */
  lemma InboundTakenIff(d: Db, owner: string, id: string, body: Text, now: int)
    ensures var (d', r) := PostInbound(d, owner, id, body, now);
            && (r == Ok_ <==> && owner != "" && id != "" && 1 <= |body| <= 65536 && Utf8(body) && 0 !in body
                              && id in d.messages && AdminAtAnEnd(d.messages[id], owner))
            && (r != Ok_ ==> d' == d)
            && (r == Ok_ ==>
                  var m := d.messages[id];
                  var row := Mirror(m.conversation, if m.recipientIsAdmin then Inbound else Outbound, body, m.createdAt, now);
                  d' == d.(mirror := if id in d.mirror then d.mirror else d.mirror[id := row]))
  {
  }

  /** Why a post is refused: the first of these that applies. */
  lemma InboundRefusal(d: Db, owner: string, id: string, body: Text, now: int)
    ensures var r := PostInbound(d, owner, id, body, now).1;
            var asked := owner != "" && id != "" && body != [];
            && (owner == "" <==> r == NoClaims)
            && (owner != "" && !asked <==> r == MissingFields)
            && (asked && |body| > 65536 <==> r == BodyTooLarge)
            && (asked && |body| <= 65536 && id !in d.messages <==> r == UnknownMessage)
            && (asked && |body| <= 65536 && id in d.messages && !AdminAtAnEnd(d.messages[id], owner) <==> r == NotParticipant)
  {
  }

  lemma EnqueueRefusal(d: Db, owner: string, user: string, typed: Text, id: string, now: int)
    ensures var r := Enqueue(d, owner, user, typed, id, now).1;
            var asked := owner != "" && user != "" && TrimSpace(typed) != [];
            && (owner == "" <==> r == NoClaims)
            && (owner != "" && !asked <==> r == MissingFields)
            && (asked && |TrimSpace(typed)| > 16384 <==> r == BodyTooLarge)
            && (asked && |TrimSpace(typed)| <= 16384 && user !in d.users <==> r == UserUnknown)
  {
    hide TrimSpace;
  }

  /** A reply is queued exactly for a known user, when 1 to 16384 bytes of text are left after trimming. */
  lemma QueuedIff(d: Db, owner: string, user: string, typed: Text, id: string, now: int)
    requires id !in d.queue
    ensures var (d', r) := Enqueue(d, owner, user, typed, id, now);
            var body := TrimSpace(typed);
            && (r == PendingItem(id) <==> owner != "" && user in d.users && user != ""
                                          && 1 <= |body| <= 16384 && Utf8(body) && 0 !in body)
            && (r != PendingItem(id) ==> d' == d)
            && (r == PendingItem(id) ==>
                  d' == d.(queue := d.queue[id := Item(user, owner, body, Pending, None, [], now, None)]))
  {
    hide TrimSpace;
  }

  /** An acknowledgement without an error takes effect exactly on a pending row, naming a known message or none. */
  lemma AcknowledgedIff(d: Db, q: string, serverMessage: string, now: int)
    ensures var (d', r) := Ack(d, q, serverMessage, [], now);
            && (r == AckSent <==> q != "" && IsPending(d, q) && (serverMessage == "" || serverMessage in d.messages))
            && (r != AckSent ==> d' == d)
            && (r == AckSent ==>
                  var i := d.queue[q];
                  && d'.queue == d.queue[q := i.(status := Sent, sentAt := Some(now),
                                                 serverMessage := if serverMessage == "" then None else Some(serverMessage))]
                  && (serverMessage != "" && serverMessage !in d.mirror ==>
                        var m := d.messages[serverMessage];
                        d'.mirror == d.mirror[serverMessage := Mirror(m.conversation, Outbound, i.body, m.createdAt, now)])
                  && (serverMessage == "" || serverMessage in d.mirror ==> d'.mirror == d.mirror)
                  && d'.messages == d.messages && d'.users == d.users)
  {
  }

  // ---- Where rows come from ---------------------------------------------------------

  /** The post or acknowledgement that made a mirror row. */
  predicate Mirrors(d: Db, step: Step, id: string, row: Mirror)
  {
    id in d.messages && id !in d.mirror && row.conversation == d.messages[id].conversation &&
    ( || (&& step.DoInbound? && step.id == id && (step.body, step.now) == (row.body, row.decryptedAt)
          && AdminAtAnEnd(d.messages[id], step.owner) && (row.direction == Inbound <==> d.messages[id].recipientIsAdmin))
      || (&& step.DoAck? && step.serverMessage == id && step.error == [] && step.now == row.decryptedAt
          && IsPending(d, step.id) && d.queue[step.id].body == row.body && row.direction == Outbound))
  }

  /** The call that queued a row. */
  predicate Queues(d: Db, step: Step, q: string, item: Item)
  {
    && step.DoEnqueue? && step.id == q && step.owner == item.admin && step.user == item.user && step.user in d.users
    && TrimSpace(step.typed) == item.body && step.now == item.createdAt
  }

  lemma MirrorStepOrigin(d: Db, step: Step, id: string)
    requires Consistent(d) && id in Do(d, step).mirror
    ensures (id in d.mirror && Do(d, step).mirror[id] == d.mirror[id]) || Mirrors(d, step, id, Do(d, step).mirror[id])
  {
    hide Storable, TrimSpace, Truncate;
    StepKeeps(d, step, id);
  }

  /** In any run a mirror row is one of the first state, or what an admin of the message posted, or what was queued and acknowledged. */
  lemma {:induction false} MirrorOrigin(d: Db, steps: seq<Step>, n: nat, id: string) returns (k: nat)
    requires Consistent(d) && n <= |steps| && id in After(d, steps, n).mirror
    ensures || (id in d.mirror && After(d, steps, n).mirror[id] == d.mirror[id])
            || (k < n && Mirrors(After(d, steps, k), steps[k], id, After(d, steps, n).mirror[id]))
  {
    hide Mirrors, Do, Consistent;
    k := 0;
    if n > 0 {
      var before := After(d, steps, n - 1);
      RunIsConsistent(d, steps, n - 1);
      MirrorStepOrigin(before, steps[n - 1], id);
      if id in before.mirror && After(d, steps, n).mirror[id] == before.mirror[id] {
        k := MirrorOrigin(d, steps, n - 1, id);
      } else {
        k := n - 1;
      }
    }
  }

  /** The same who, for whom, what and when; status, link and error may differ. */
  predicate SameOrder(i: Item, i': Item)
  {
    (i.user, i.admin, i.body, i.createdAt) == (i'.user, i'.admin, i'.body, i'.createdAt)
  }

  lemma QueueStepOrigin(d: Db, step: Step, q: string)
    requires Consistent(d) && q in Do(d, step).queue
    ensures (q in d.queue && SameOrder(d.queue[q], Do(d, step).queue[q])) || Queues(d, step, q, Do(d, step).queue[q])
  {
    hide Storable, TrimSpace, Truncate;
    StepKeeps(d, step, q);
  }

  /** In any run a queue row is one of the first state or what its admin typed for its user, without the white space around it. */
  lemma {:induction false} QueueOrigin(d: Db, steps: seq<Step>, n: nat, q: string) returns (k: nat)
    requires Consistent(d) && n <= |steps| && q in After(d, steps, n).queue
    ensures || (q in d.queue && SameOrder(d.queue[q], After(d, steps, n).queue[q]))
            || (k < n && Queues(After(d, steps, k), steps[k], q, After(d, steps, n).queue[q]))
  {
    hide Do, Consistent, TrimSpace;
    k := 0;
    if n > 0 {
      var before := After(d, steps, n - 1);
      RunIsConsistent(d, steps, n - 1);
      QueueStepOrigin(before, steps[n - 1], q);
      if q in before.queue && SameOrder(before.queue[q], After(d, steps, n).queue[q]) {
        k := QueueOrigin(d, steps, n - 1, q);
      } else {
        k := n - 1;
      }
    }
  }

  // ---- How long messages and mirror rows stay -----------------------------------------

  /** A sweep of messages for which one created at `createdAt` is too old. */
  predicate DropsMessage(step: Step, createdAt: int)
  {
    step.DoPurgeMessages? && createdAt < step.now - step.ttl
  }

  predicate HasMessage(d: Db, id: string, m: Message) { id in d.messages && d.messages[id] == m }

  lemma MessageStep(d: Db, step: Step, id: string, m: Message)
    ensures HasMessage(d, id, m) && !DropsMessage(step, m.createdAt) ==> HasMessage(Do(d, step), id, m)
    ensures HasMessage(d, id, m) && DropsMessage(step, m.createdAt) ==> id !in Do(d, step).messages
    ensures id !in d.messages && !(step.Arrive? && step.id == id) ==> id !in Do(d, step).messages
  {
    hide Storable, TrimSpace, Truncate;
  }

  /** Over any run a message stays, as it is, exactly until the first sweep for which it is older than the time to live. */
  lemma {:induction false} MessageTailIff(d: Db, steps: seq<Step>, id: string, i: nat, j: nat)
    requires i <= j <= |steps| && id in After(d, steps, i).messages
    requires forall k :: i <= k < j ==> !(steps[k].Arrive? && steps[k].id == id)
    ensures var m := After(d, steps, i).messages[id];
            if forall k :: i <= k < j ==> !DropsMessage(steps[k], m.createdAt)
            then HasMessage(After(d, steps, j), id, m) else id !in After(d, steps, j).messages
    decreases j
  {
    hide Do, DropsMessage;
    if i < j {
      MessageTailIff(d, steps, id, i, j - 1);
      MessageStep(After(d, steps, j - 1), steps[j - 1], id, After(d, steps, i).messages[id]);
    }
  }

  /** A sweep that takes the mirror row: of messages by its message's age, or of the mirror 30 days after it was decrypted. */
  predicate DropsMirror(step: Step, row: Mirror)
  {
    || DropsMessage(step, row.createdAt)
    || (step.DoPurgeAdminSync? && row.decryptedAt < step.now - 30 * 24 * 3600)
  }

  /** A call that could mirror the message. */
  predicate MayMirror(step: Step, id: string)
  {
    (step.DoInbound? && step.id == id) || (step.DoAck? && step.serverMessage == id)
  }

  lemma MirrorTailStep(d: Db, step: Step, id: string, row: Mirror)
    requires Consistent(d)
    ensures id in d.mirror && d.mirror[id] == row && !DropsMirror(step, row) ==>
              id in Do(d, step).mirror && Do(d, step).mirror[id] == row
    ensures id in d.mirror && d.mirror[id] == row && DropsMirror(step, row) ==> id !in Do(d, step).mirror
    ensures id !in d.mirror && !MayMirror(step, id) ==> id !in Do(d, step).mirror
  {
    hide Storable, TrimSpace, Truncate;
    StepKeeps(d, step, id);
  }

  /** Over any run in which nobody mirrors the message again, its mirror row stays exactly until such a sweep. */
  lemma {:induction false} MirrorTailIff(d: Db, steps: seq<Step>, id: string, i: nat, j: nat)
    requires Consistent(d) && i <= j <= |steps| && id in After(d, steps, i).mirror
    requires forall k :: i <= k < j ==> !MayMirror(steps[k], id)
    ensures var row := After(d, steps, i).mirror[id];
            if forall k :: i <= k < j ==> !DropsMirror(steps[k], row)
            then id in After(d, steps, j).mirror && After(d, steps, j).mirror[id] == row
            else id !in After(d, steps, j).mirror
    decreases j
  {
    hide Do, DropsMirror, Consistent, MayMirror;
    if i < j {
      MirrorTailIff(d, steps, id, i, j - 1);
      RunIsConsistent(d, steps, j - 1);
      MirrorTailStep(After(d, steps, j - 1), steps[j - 1], id, After(d, steps, i).mirror[id]);
    }
  }
}
