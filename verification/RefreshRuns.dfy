/** Runs of the refresh-token table: issue, rotate, revoke and purge in any order. */
module RefreshRuns {
  import opened Basics
  import opened RefreshTokens

  datatype Call =
    | CallIssue(device: string, family: string, newId: string, newRaw: string)   // family as inserted
    | CallRotate(presented: string, newId: string, newRaw: string)
    | CallRevoke(presented: string)
    | CallRevokeDevice(device: string)
    | CallPurge

  datatype Event = Event(now: Clock, call: Call)

  function Apply(s: Settings, t: Table, ev: Event): (Table, Outcome)
  {
    match ev.call
    case CallIssue(device, family, id, raw) => Issue(s, t, device, family, id, raw, ev.now)
    case CallRotate(presented, id, raw) => Rotate(s, t, presented, id, raw, ev.now)
    case CallRevoke(presented) => Revoke(t, presented, ev.now)
    case CallRevokeDevice(device) => (RevokeDevice(t, device, ev.now), Done)
    case CallPurge => (Purge(t, ev.now.db), Done)
  }

  function Final(s: Settings, t: Table, evs: seq<Event>): Table
  {
    if evs == [] then t else Apply(s, Final(s, t, evs[..|evs| - 1]), evs[|evs| - 1]).0
  }

  /** What call `i` of the run answers. */
  function Answer(s: Settings, t: Table, evs: seq<Event>, i: nat): Outcome
    requires i < |evs|
  {
    Apply(s, Final(s, t, evs[..i]), evs[i]).1
  }

  lemma FinalStep(s: Settings, t: Table, evs: seq<Event>, i: nat)
    requires i < |evs|
    ensures Final(s, t, evs[..i + 1]) == Apply(s, Final(s, t, evs[..i]), evs[i]).0
  {
    assert evs[..i + 1][..i] == evs[..i];
  }

  function CreatedId(ev: Event): Option<string>
  {
    if ev.call.CallIssue? || ev.call.CallRotate? then Some(ev.call.newId) else None
  }

  // ---- Purging cannot be observed ---------------------------------------------

  /** The same calls, with every purge turned off. */
  function NoPurge(s: Settings, t: Table, ev: Event): (Table, Outcome)
  {
    if ev.call.CallPurge? then (t, Done) else Apply(s, t, ev)
  }

  function Unpurged(s: Settings, t: Table, evs: seq<Event>): Table
  {
    if evs == [] then t else NoPurge(s, Unpurged(s, t, evs[..|evs| - 1]), evs[|evs| - 1]).0
  }

  /** Both clocks run forward, and the server's clock is never more than a week behind the database's. */
  predicate Clocks(evs: seq<Event>)
  {
    && (forall i, j :: 0 <= i < j < |evs| ==> evs[i].now.app <= evs[j].now.app)
    && (forall i :: 0 <= i < |evs| ==> evs[i].now.app >= evs[i].now.db - 7 * DAY)
  }

  /** A random id has not been given out before, purged or not. */
  predicate FreshIds(s: Settings, t: Table, evs: seq<Event>)
  {
    forall i :: 0 <= i < |evs| && CreatedId(evs[i]).Some? ==> CreatedId(evs[i]).value !in Unpurged(s, t, evs[..i])
  }

  /** The purged table is the full one without some rows that no rotation accepts any more. */
  predicate Hides(full: Table, purged: Table, app: int)
  {
    && (forall id :: id in purged ==> id in full && purged[id] == full[id])
    && (forall id :: id in full && id !in purged ==> Dead(full[id], app))
  }

  /** Rotation reads one row, so a hidden row answers like a missing one. */
  lemma HidesRotate(s: Settings, full: Table, purged: Table, presented: string, newId: string, newRaw: string,
                    now: Clock, app: int)
    requires Hides(full, purged, app) && app <= now.app && newId !in full
    ensures Hides(Rotate(s, full, presented, newId, newRaw, now).0, Rotate(s, purged, presented, newId, newRaw, now).0, now.app)
    ensures Rotate(s, full, presented, newId, newRaw, now).1 == Rotate(s, purged, presented, newId, newRaw, now).1
  {
  }

  lemma HidesStep(s: Settings, full: Table, purged: Table, ev: Event, app: int)
    requires Hides(full, purged, app) && app <= ev.now.app && ev.now.app >= ev.now.db - 7 * DAY
    requires CreatedId(ev).Some? ==> CreatedId(ev).value !in full
    ensures Hides(NoPurge(s, full, ev).0, Apply(s, purged, ev).0, ev.now.app)
    ensures NoPurge(s, full, ev).1 == Apply(s, purged, ev).1
  {
    if ev.call.CallRotate? {
      HidesRotate(s, full, purged, ev.call.presented, ev.call.newId, ev.call.newRaw, ev.now, app);
    } else {
      hide Rotate;
    }
  }

  lemma {:induction false} PurgeHides(s: Settings, t: Table, evs: seq<Event>, app: int)
    requires Clocks(evs) && FreshIds(s, t, evs)
    requires forall i :: 0 <= i < |evs| ==> evs[i].now.app >= app
    ensures Hides(Unpurged(s, t, evs), Final(s, t, evs), if evs == [] then app else evs[|evs| - 1].now.app)
  {
    if evs != [] {
      var n := |evs| - 1;
      var init := evs[..n];
      forall i | 0 <= i < n ensures init[..i] == evs[..i] { }
      PurgeHides(s, t, init, app);
      HidesStep(s, Unpurged(s, t, init), Final(s, t, init), evs[n], if init == [] then app else init[n - 1].now.app);
    }
  }

  /**
   From any table, a run with purges answers every call as the same run without
   them, as long as the clocks agree to within a week and random ids are new.
   */
  lemma PurgeIsUnobservable(s: Settings, t: Table, evs: seq<Event>, i: nat)
    requires Clocks(evs) && FreshIds(s, t, evs) && i < |evs|
    ensures Answer(s, t, evs, i) == NoPurge(s, Unpurged(s, t, evs[..i]), evs[i]).1
  {
    var init := evs[..i];
    forall k | 0 <= k < i ensures init[..k] == evs[..k] { }
    PurgeHides(s, t, init, evs[0].now.app);
    HidesStep(s, Unpurged(s, t, init), Final(s, t, init), evs[i],
              if init == [] then evs[0].now.app else init[i - 1].now.app);
  }

  // ---- A replay closes its family -----------------------------------------------

  predicate Closed(t: Table, family: string)
  {
    forall id :: id in t && t[id].family == family ==> t[id].revokedAt.Some?
  }

  predicate Names(ev: Event, family: string) { ev.call.CallIssue? && ev.call.family == family }

  lemma ClosedStep(s: Settings, t: Table, ev: Event, family: string)
    requires Closed(t, family) && !Names(ev, family)
    ensures Closed(Apply(s, t, ev).0, family)
    ensures !(Apply(s, t, ev).1.Rotated? && Apply(s, t, ev).1.family == family)
  {
  }

  lemma {:induction false} ClosedStays(s: Settings, t: Table, evs: seq<Event>, family: string, i: nat, j: nat)
    requires i <= j <= |evs| && Closed(Final(s, t, evs[..i]), family)
    requires forall k :: i <= k < j ==> !Names(evs[k], family)
    ensures Closed(Final(s, t, evs[..j]), family)
    decreases j
  {
    if i < j {
      ClosedStays(s, t, evs, family, i, j - 1);
      FinalStep(s, t, evs, j - 1);
      ClosedStep(s, Final(s, t, evs[..j - 1]), evs[j - 1], family);
    }
  }

  /** After a replay answer for a family, no rotation in it succeeds unless an issue names that family again. */
  lemma ReplayIsFinal(s: Settings, t: Table, evs: seq<Event>, i: nat, j: nat)
    requires i < j < |evs| && Answer(s, t, evs, i).ErrReplayed?
    requires forall k :: i < k < j ==> !Names(evs[k], Answer(s, t, evs, i).family)
    ensures !(Answer(s, t, evs, j).Rotated? && Answer(s, t, evs, j).family == Answer(s, t, evs, i).family)
  {
    var family := Answer(s, t, evs, i).family;
    FinalStep(s, t, evs, i);
    ClosedStays(s, t, evs, family, i + 1, j);
    if !evs[j].call.CallIssue? {
      ClosedStep(s, Final(s, t, evs[..j]), evs[j], family);
    }
  }

  /**
   The exception is real for every table: an issue that names a closed family
   hands out a token that rotates.
   */
  lemma NamedIssueReopens(s: Settings, t: Table, device: string, family: string, id: string, raw: string,
                          newId: string, newRaw: string, now: Clock, later: Clock)
    requires id !in t && newId !in t && newId != id && '.' !in id
    requires later.app <= now.app + s.ttl
    ensures var issued := Apply(s, t, Event(now, CallIssue(device, family, id, raw)));
            && issued.1.Issued?
            && Apply(s, issued.0, Event(later, CallRotate(issued.1.token, newId, newRaw))).1
                 == Rotated(newId + DOT + newRaw, device, family)
  {
    SplitJoined(id, raw);
  }

  // ---- Families are lines -------------------------------------------------------

  /** Rows of one family belong to one device, and at most one of them is unused. */
  predicate Lines(t: Table)
  {
    forall a, b :: a in t && b in t && a != b && t[a].family == t[b].family ==>
                     t[a].device == t[b].device && (t[a].usedAt.Some? || t[b].usedAt.Some?)
  }

  /** An issue starts a family that no row belongs to, as every caller in the repository does. */
  predicate StartsFamily(t: Table, ev: Event)
  {
    ev.call.CallIssue? ==> forall id :: id in t ==> t[id].family != ev.call.family
  }

  predicate AllStartFamilies(s: Settings, t: Table, evs: seq<Event>)
  {
    forall i :: 0 <= i < |evs| ==> StartsFamily(Final(s, t, evs[..i]), evs[i])
  }

  lemma LinesRotate(s: Settings, t: Table, presented: string, newId: string, newRaw: string, now: Clock)
    requires Lines(t)
    ensures Lines(Rotate(s, t, presented, newId, newRaw, now).0)
  {
    var t', out := Rotate(s, t, presented, newId, newRaw, now).0, Rotate(s, t, presented, newId, newRaw, now).1;
    if out.Rotated? {
      var id := SplitToken(presented).value.0;
      forall a | a in t && t[a].family == t[id].family ensures t'[a].usedAt.Some? && t'[a].device == t[id].device { }
    }
    hide Rotate, SplitToken;
  }

  lemma LinesStep(s: Settings, t: Table, ev: Event)
    requires Lines(t) && StartsFamily(t, ev)
    ensures Lines(Apply(s, t, ev).0)
  {
    if ev.call.CallRotate? {
      LinesRotate(s, t, ev.call.presented, ev.call.newId, ev.call.newRaw, ev.now);
    } else {
      hide Rotate;
    }
  }

  lemma {:induction false} FamiliesAreLines(s: Settings, t: Table, evs: seq<Event>)
    requires Lines(t) && AllStartFamilies(s, t, evs)
    ensures Lines(Final(s, t, evs))
  {
    if evs != [] {
      var n := |evs| - 1;
      forall i | 0 <= i < n ensures evs[..n][..i] == evs[..i] { }
      FamiliesAreLines(s, t, evs[..n]);
      LinesStep(s, Final(s, t, evs[..n]), evs[n]);
    }
  }

  // ---- A token rotates once -------------------------------------------------------

  predicate Spent(t: Table, id: string) { id in t ==> t[id].usedAt.Some? }

  lemma SpentStep(s: Settings, t: Table, ev: Event, id: string)
    requires Spent(t, id) && CreatedId(ev) != Some(id)
    ensures Spent(Apply(s, t, ev).0, id)
  {
  }

  lemma {:induction false} SpentStays(s: Settings, t: Table, evs: seq<Event>, id: string, i: nat, j: nat)
    requires i <= j <= |evs| && Spent(Final(s, t, evs[..i]), id)
    requires forall k :: i <= k < j ==> CreatedId(evs[k]) != Some(id)
    ensures Spent(Final(s, t, evs[..j]), id)
    decreases j
  {
    if i < j {
      SpentStays(s, t, evs, id, i, j - 1);
      FinalStep(s, t, evs, j - 1);
      SpentStep(s, Final(s, t, evs[..j - 1]), evs[j - 1], id);
    }
  }

  /** Two presentations of one token never both rotate, whatever happens in between. */
  lemma RotatesAtMostOnce(s: Settings, t: Table, evs: seq<Event>, i: nat, j: nat, id: string)
    requires i < j < |evs| && evs[i].call.CallRotate? && evs[j].call.CallRotate?
    requires SplitToken(evs[i].call.presented).Some? && SplitToken(evs[i].call.presented).value.0 == id
    requires SplitToken(evs[j].call.presented).Some? && SplitToken(evs[j].call.presented).value.0 == id
    requires forall k :: i <= k < j ==> CreatedId(evs[k]) != Some(id)
    ensures !(Answer(s, t, evs, i).Rotated? && Answer(s, t, evs, j).Rotated?)
  {
    if Answer(s, t, evs, i).Rotated? {
      FinalStep(s, t, evs, i);
      SpentStays(s, t, evs, id, i + 1, j);
    }
  }

  // ---- Only the secret rotates ----------------------------------------------------

  /** A wrong secret, like an unknown id, is refused and changes nothing. */
  lemma WrongSecretIsRefused(s: Settings, t: Table, id: string, raw: string, newId: string, newRaw: string, now: Clock)
    requires '.' !in id && (id in t ==> s.sha256(raw) != t[id].tokenHash)
    ensures Rotate(s, t, id + DOT + raw, newId, newRaw, now) == (t, ErrBadRefresh)
  {
    SplitJoined(id, raw);
  }

  /** With the right secret: refused when revoked or expired, else a replay when used before, else rotated unless ids collide. */
  lemma RightSecretIff(s: Settings, t: Table, id: string, raw: string, newId: string, newRaw: string, now: Clock)
    requires '.' !in id && id in t && s.sha256(raw) == t[id].tokenHash
    ensures var (t', answer) := Rotate(s, t, id + DOT + raw, newId, newRaw, now);
            var live := t[id].revokedAt.None? && now.app <= t[id].expiresAt;
            && (answer == ErrBadRefresh <==> !live)
            && (answer == ErrReplayed(t[id].family) <==> live && t[id].usedAt.Some?)
            && (answer == ErrDb <==> live && t[id].usedAt.None? && newId in t)
            && (answer.Rotated? <==> live && t[id].usedAt.None? && newId !in t)
            && (answer == ErrBadRefresh || answer == ErrDb ==> t' == t)
  {
    SplitJoined(id, raw);
  }

  /** An id that is taken is not issued again, and text without a dot is no token. */
  lemma RefusedOutright(s: Settings, t: Table, device: string, family: string, id: string, raw: string,
                        text: string, newId: string, newRaw: string, now: Clock)
    requires id in t && '.' !in text
    ensures Issue(s, t, device, family, id, raw, now) == (t, ErrDb)
    ensures Rotate(s, t, text, newId, newRaw, now) == (t, ErrBadRefresh) && Revoke(t, text, now) == (t, ErrBadRefresh)
  {
    SplitIsFirstDot(text);
  }

  /** Event `i` handed out the token `id.raw`. */
  predicate HandsOut(s: Settings, t: Table, evs: seq<Event>, i: nat, id: string, raw: string)
    requires i < |evs|
  {
    && CreatedId(evs[i]) == Some(id) && evs[i].call.newRaw == raw
    && (Answer(s, t, evs, i).Issued? || Answer(s, t, evs, i).Rotated?)
    && Answer(s, t, evs, i).token == id + DOT + raw
  }

  /** Every row of a run that starts empty was made by the call that handed out its token, and keeps its hash. */
  lemma {:induction false} RowWasHandedOut(s: Settings, evs: seq<Event>, id: string) returns (i: nat)
    requires id in Final(s, map[], evs)
    ensures i < |evs| && CreatedId(evs[i]).Some? && HandsOut(s, map[], evs, i, id, evs[i].call.newRaw)
    ensures Final(s, map[], evs)[id].tokenHash == s.sha256(evs[i].call.newRaw)
  {
    var n := |evs| - 1;
    var init := evs[..n];
    if id in Final(s, map[], init) {
      i := RowWasHandedOut(s, init, id);
      assert init[..i] == evs[..i];
    } else {
      i := n;
    }
  }

  /** In any run from the empty table, whoever rotates or replays a token knows a secret with the hash of the one handed out. */
  lemma OnlyTheSecretRotates(s: Settings, evs: seq<Event>, j: nat) returns (i: nat)
    requires j < |evs| && evs[j].call.CallRotate?
    requires Answer(s, map[], evs, j).Rotated? || Answer(s, map[], evs, j).ErrReplayed?
    ensures SplitToken(evs[j].call.presented).Some?
    ensures var (id, raw) := SplitToken(evs[j].call.presented).value;
            && i < j && CreatedId(evs[i]).Some? && HandsOut(s, map[], evs, i, id, evs[i].call.newRaw)
            && s.sha256(raw) == s.sha256(evs[i].call.newRaw)
  {
    var id := SplitToken(evs[j].call.presented).value.0;
    i := RowWasHandedOut(s, evs[..j], id);
    assert evs[..j][..i] == evs[..i];
  }

  // ---- Exactly how long a token lives -----------------------------------------------

  function DeviceOf(s: Settings, t: Table, evs: seq<Event>, i: nat): string
    requires i < |evs|
  {
    if evs[i].call.CallIssue? then evs[i].call.device
    else if Answer(s, t, evs, i).Rotated? then Answer(s, t, evs, i).device else ""
  }

  function FamilyOf(s: Settings, t: Table, evs: seq<Event>, i: nat): string
    requires i < |evs|
  {
    if evs[i].call.CallIssue? then evs[i].call.family
    else if Answer(s, t, evs, i).Rotated? then Answer(s, t, evs, i).family else ""
  }

  /** The row behind a token that has not been touched since event `i` made it. */
  function BornRow(s: Settings, t: Table, evs: seq<Event>, i: nat, raw: string): Row
    requires i < |evs|
  {
    Row(DeviceOf(s, t, evs, i), FamilyOf(s, t, evs, i), s.sha256(raw), None, None, evs[i].now.app + s.ttl)
  }

  predicate Presents(call: Call, id: string)
  {
    && (call.CallRotate? || call.CallRevoke?)
    && SplitToken(call.presented).Some? && SplitToken(call.presented).value.0 == id
  }

  /** An event that revokes the token `id` of `device` and `family`: by itself, with its device, or by a replay in its family. */
  predicate Revokes(ev: Event, answer: Outcome, id: string, device: string, family: string)
  {
    || (ev.call.CallRevoke? && Presents(ev.call, id))
    || ev.call == CallRevokeDevice(device)
    || answer == ErrReplayed(family)
  }

  predicate Untouched(t: Table, id: string, row: Row) { id in t && t[id] == row }

  predicate UsedUp(t: Table, id: string, row: Row)
  {
    id in t && t[id].usedAt.Some? && t[id] == row.(usedAt := t[id].usedAt)
  }

  predicate Unusable(t: Table, id: string) { id in t ==> t[id].revokedAt.Some? }

  lemma UntouchedStep(s: Settings, t: Table, ev: Event, id: string, row: Row)
    requires Untouched(t, id, row) && row.usedAt.None? && row.revokedAt.None? && CreatedId(ev) != Some(id)
    ensures var (t', answer) := Apply(s, t, ev);
            if Revokes(ev, answer, id, row.device, row.family) || (ev.call.CallPurge? && row.expiresAt < ev.now.db - 7 * DAY)
            then Unusable(t', id)
            else if answer.Rotated? && Presents(ev.call, id) then UsedUp(t', id, row) else Untouched(t', id, row)
  {
  }

  lemma UsedUpStep(s: Settings, t: Table, ev: Event, id: string, row: Row)
    requires UsedUp(t, id, row) && row.revokedAt.None? && CreatedId(ev) != Some(id)
    ensures var (t', answer) := Apply(s, t, ev);
            if Revokes(ev, answer, id, row.device, row.family) || (ev.call.CallPurge? && row.expiresAt < ev.now.db - 7 * DAY)
            then Unusable(t', id)
            else UsedUp(t', id, row) && !(answer.Rotated? && Presents(ev.call, id))
  {
  }

  lemma UnusableStep(s: Settings, t: Table, ev: Event, id: string)
    requires Unusable(t, id) && CreatedId(ev) != Some(id)
    ensures Unusable(Apply(s, t, ev).0, id)
  {
  }

  /** Between `i`, which handed the token out, and `j` something revoked it. */
  predicate RevokedBetween(s: Settings, t: Table, evs: seq<Event>, i: nat, j: nat, id: string)
    requires i < j <= |evs|
  {
    exists k :: i < k < j && Revokes(evs[k], Answer(s, t, evs, k), id, DeviceOf(s, t, evs, i), FamilyOf(s, t, evs, i))
  }

  predicate RotatedBetween(s: Settings, t: Table, evs: seq<Event>, i: nat, j: nat, id: string)
    requires i < j <= |evs|
  {
    exists k :: i < k < j && Answer(s, t, evs, k).Rotated? && Presents(evs[k].call, id)
  }

  predicate ExpiredBetween(s: Settings, evs: seq<Event>, i: nat, j: nat)
    requires i < j <= |evs|
  {
    exists k :: i < k < j && evs[k].now.app > evs[i].now.app + s.ttl
  }

  lemma BornUntouched(s: Settings, t: Table, evs: seq<Event>, i: nat, id: string, raw: string)
    requires i < |evs| && HandsOut(s, t, evs, i, id, raw)
    ensures Untouched(Final(s, t, evs[..i + 1]), id, BornRow(s, t, evs, i, raw))
  {
    FinalStep(s, t, evs, i);
  }

  /** The row of a token is as it was made, or used up by a rotation, or revoked or swept. */
  predicate Standing(s: Settings, t: Table, evs: seq<Event>, i: nat, j: nat, id: string, raw: string)
    requires i < j <= |evs|
  {
    var t' := Final(s, t, evs[..j]);
    if RevokedBetween(s, t, evs, i, j, id) then Unusable(t', id)
    else
      || (ExpiredBetween(s, evs, i, j) && Unusable(t', id))
      || (if RotatedBetween(s, t, evs, i, j, id) then UsedUp(t', id, BornRow(s, t, evs, i, raw))
          else Untouched(t', id, BornRow(s, t, evs, i, raw)))
  }

  lemma {:induction false} TokenStands(s: Settings, t: Table, evs: seq<Event>, i: nat, j: nat, id: string, raw: string)
    requires i < j <= |evs| && Clocks(evs) && HandsOut(s, t, evs, i, id, raw)
    requires forall k :: i < k < j ==> CreatedId(evs[k]) != Some(id)
    ensures Standing(s, t, evs, i, j, id, raw)
    decreases j
  {
    hide Apply, Revokes, Final, HandsOut, Clocks, Presents;
    var row := BornRow(s, t, evs, i, raw);
    if j == i + 1 {
      BornUntouched(s, t, evs, i, id, raw);
    } else {
      var k := j - 1;
      var before := Final(s, t, evs[..k]);
      TokenStands(s, t, evs, i, k, id, raw);
      FinalStep(s, t, evs, k);
      ClockAt(evs, k);
      if Untouched(before, id, row) {
        UntouchedStep(s, before, evs[k], id, row);
      } else if UsedUp(before, id, row) {
        UsedUpStep(s, before, evs[k], id, row);
      } else {
        UnusableStep(s, before, evs[k], id);
      }
    }
  }

  lemma ClockAt(evs: seq<Event>, k: nat)
    requires Clocks(evs) && k < |evs|
    ensures evs[k].now.app >= evs[k].now.db - 7 * DAY
  {
  }

  /**
   What a token that was handed out is good for, whatever else happened since,
   purges included: it is refused exactly if it has expired, was revoked itself
   or with its device, or a token of its family was replayed; otherwise it is a
   replay if it was rotated before, and rotates if not.
   */
  lemma TokenAnswersIff(s: Settings, t: Table, evs: seq<Event>, i: nat, j: nat, id: string, raw: string)
    requires i < j < |evs| && Clocks(evs) && HandsOut(s, t, evs, i, id, raw) && '.' !in id
    requires forall k :: i < k <= j ==> CreatedId(evs[k]) != Some(id)
    requires evs[j].call.CallRotate? && evs[j].call.presented == id + DOT + raw
    requires evs[j].call.newId !in Final(s, t, evs[..j])
    ensures Answer(s, t, evs, j) ==
              if evs[j].now.app > evs[i].now.app + s.ttl || RevokedBetween(s, t, evs, i, j, id) then ErrBadRefresh
              else if RotatedBetween(s, t, evs, i, j, id) then ErrReplayed(FamilyOf(s, t, evs, i))
              else Rotated(evs[j].call.newId + DOT + evs[j].call.newRaw, DeviceOf(s, t, evs, i), FamilyOf(s, t, evs, i))
  {
    TokenStands(s, t, evs, i, j, id, raw);
    SplitJoined(id, raw);
    hide RevokedBetween, RotatedBetween, Final, HandsOut;
  }

  // ---- What the sweep takes -------------------------------------------------------

  /** A row that is not revoked goes 7 days after it expired; however it was revoked, it goes 30 days after that or then. */
  lemma SweepTakesIff(s: Settings, t: Table, id: string, raw: string, now: Clock, db: int)
    requires id in t && t[id].revokedAt.None? && '.' !in id
    ensures id in Purge(t, db) <==> t[id].expiresAt >= db - 7 * 86400
    ensures var kept := t[id].expiresAt >= db - 7 * 86400 && now.db >= db - 30 * 86400;
            && (id in Purge(Revoke(t, id + DOT + raw, now).0, db) <==> kept)
            && (id in Purge(RevokeDevice(t, t[id].device, now), db) <==> kept)
            && (id in Purge(RevokeFamily(t, t[id].family, now), db) <==> kept)
    ensures id in Purge(t, db) ==> Purge(t, db)[id] == t[id]
  {
    SplitJoined(id, raw);
  }

  /** A row that is revoked already keeps its date when its device or family is revoked; a second revocation by token renews it. */
  lemma FirstRevocationCounts(t: Table, id: string, raw: string, device: string, family: string, now: Clock)
    requires id in t && t[id].revokedAt.Some? && '.' !in id
    ensures id in RevokeDevice(t, device, now) && RevokeDevice(t, device, now)[id] == t[id]
    ensures id in RevokeFamily(t, family, now) && RevokeFamily(t, family, now)[id] == t[id]
    ensures Revoke(t, id + DOT + raw, now).0 == t[id := t[id].(revokedAt := Some(now.db))]
  {
    SplitJoined(id, raw);
  }
}
