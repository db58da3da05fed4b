/**
 backend/internal/api/prekeys.go: the pool of one-time prekeys, uploaded by
 devices and handed out by concurrent fetch transactions; and the device's own
 consume-and-delete in admin-mobile/lib/data/local_db.dart.
 */
module Prekeys {
  import opened Basics

  /** A row of one_time_prekeys. */
  datatype OpkRow = OpkRow(device: string, prekeyId: int, pubkey: Bytes, consumed: bool)

  /** An open fetch transaction and the row it has locked. */
  datatype Tx = Tx(device: string, picked: Option<nat>)

  /** An answered fetch; `row` is the row behind the one-time prekey it carries. */
  datatype Answer = Answer(device: string, row: Option<nat>, opk: Option<(int, Bytes)>)

  datatype Server = Server(rows: map<nat, OpkRow>, nextRow: nat, txs: map<nat, Tx>, answers: seq<Answer>)

  datatype Status = Accepted | BadKey | TooMany

  // ---- Upload ---------------------------------------------------------------

  predicate Known(rows: map<nat, OpkRow>, device: string, prekeyId: int)
  {
    exists id :: id in rows && rows[id].device == device && rows[id].prekeyId == prekeyId
  }

  /** One INSERT with ON CONFLICT (device_id, prekey_id) DO NOTHING; the serial advances either way. */
  function Insert(s: Server, device: string, opk: (int, Bytes)): Server
  {
    if Known(s.rows, device, opk.0) then s.(nextRow := s.nextRow + 1)
    else s.(rows := s.rows[s.nextRow := OpkRow(device, opk.0, opk.1, false)], nextRow := s.nextRow + 1)
  }

  function InsertAll(s: Server, device: string, opks: seq<(int, Bytes)>): Server
  {
    if opks == [] then s else Insert(InsertAll(s, device, opks[..|opks| - 1]), device, opks[|opks| - 1])
  }

  /** The keys before the first one that is not 32 bytes long. */
  function WellFormed(opks: seq<(int, Bytes)>): (n: nat)
    ensures n <= |opks|
  {
    if opks == [] || |opks[0].1| != 32 then 0 else 1 + WellFormed(opks[1..])
  }

  lemma {:induction false} WellFormedUpTo(opks: seq<(int, Bytes)>, n: nat)
    requires n <= |opks| && forall k :: 0 <= k < n ==> |opks[k].1| == 32
    requires n < |opks| ==> |opks[n].1| != 32
    ensures WellFormed(opks) == n
  {
    if n > 0 {
      WellFormedUpTo(opks[1..], n - 1);
    }
  }

  // ---- Fetch ------------------------------------------------------------------

  predicate Locked(s: Server, row: nat)
  {
    exists tx :: tx in s.txs && s.txs[tx].picked == Some(row)
  }

  predicate Free(s: Server, device: string, row: nat)
  {
    row in s.rows && s.rows[row].device == device && !s.rows[row].consumed && !Locked(s, row)
  }

  /** ORDER BY id LIMIT 1 FOR UPDATE SKIP LOCKED, scanning the ids from `from` on. */
  function Pick(s: Server, device: string, from: nat): (r: Option<nat>)
    ensures r.Some? ==> from <= r.value < s.nextRow && Free(s, device, r.value)
    ensures forall k :: from <= k < (if r.Some? then r.value else s.nextRow) ==> !Free(s, device, k)
    decreases s.nextRow - from
  {
    if from >= s.nextRow then None
    else if Free(s, device, from) then Some(from)
    else Pick(s, device, from + 1)
  }

  function AnswerOf(s: Server, tx: Tx): Answer
  {
    var opk := if tx.picked.Some? && tx.picked.value in s.rows
               then Some((s.rows[tx.picked.value].prekeyId, s.rows[tx.picked.value].pubkey)) else None;
    Answer(tx.device, tx.picked, opk)
  }

  datatype Step =
    | Upload(device: string, opks: seq<(int, Bytes)>)
    | Select(tx: nat, device: string)
    | Commit(tx: nat)
    | Abort(tx: nat)
    | PurgeConsumed(rows: set<nat>)     // purgePrekeys, for the rows old enough

  function Do(s: Server, step: Step): Server
  {
    match step
    case Upload(device, opks) =>
      if |opks| > 100 then s else InsertAll(s, device, opks[..WellFormed(opks)])
    case Select(tx, device) =>
      if tx in s.txs then s else s.(txs := s.txs[tx := Tx(device, Pick(s, device, 0))])
    case Commit(tx) =>
      if tx !in s.txs then s
      else
        var t := s.txs[tx];
        var rows := if t.picked.Some? && t.picked.value in s.rows
                    then s.rows[t.picked.value := s.rows[t.picked.value].(consumed := true)] else s.rows;
        s.(rows := rows, txs := s.txs - {tx}, answers := s.answers + [AnswerOf(s, t)])
    case Abort(tx) => s.(txs := s.txs - {tx})
    case PurgeConsumed(aged) => s.(rows := map r | r in s.rows && !(r in aged && s.rows[r].consumed) :: s.rows[r])
  }

  function DoAll(s: Server, steps: seq<Step>): Server
  {
    if steps == [] then s else Do(DoAll(s, steps[..|steps| - 1]), steps[|steps| - 1])
  }

  const EMPTY := Server(map[], 0, map[], [])

  // ---- Handed out at most once ----------------------------------------------------

  predicate PickOk(s: Server, tx: nat)
    requires tx in s.txs
  {
    var t := s.txs[tx];
    t.picked.Some? ==> t.picked.value in s.rows && !s.rows[t.picked.value].consumed && s.rows[t.picked.value].device == t.device
  }

  predicate AnswerOk(s: Server, a: Answer)
  {
    && (a.row.Some? <==> a.opk.Some?)
    && (a.row.Some? ==>
          && a.row.value < s.nextRow && !Locked(s, a.row.value)
          && (a.row.value in s.rows ==>
                var r := s.rows[a.row.value];
                r.consumed && r.device == a.device && a.opk.value == (r.prekeyId, r.pubkey)))
  }

  predicate Inv(s: Server)
  {
    && (forall r :: r in s.rows ==> r < s.nextRow)
    && (forall tx :: tx in s.txs ==> PickOk(s, tx))
    && (forall tx, tx' :: tx in s.txs && tx' in s.txs && tx != tx' && s.txs[tx].picked.Some? ==>
                            s.txs[tx].picked != s.txs[tx'].picked)
    && (forall i :: 0 <= i < |s.answers| ==> AnswerOk(s, s.answers[i]))
    && (forall i, j :: 0 <= i < j < |s.answers| && s.answers[i].row.Some? ==> s.answers[i].row != s.answers[j].row)
  }

  /** Rows stay what they are, and new ones get new ids. */
  predicate RowsGrow(s: Server, s': Server)
  {
    && s'.nextRow >= s.nextRow && s'.txs == s.txs && s'.answers == s.answers
    && (forall r :: r in s.rows ==> r in s'.rows && s'.rows[r] == s.rows[r])
    && (forall r :: r in s'.rows && r !in s.rows ==> s.nextRow <= r < s'.nextRow && !s'.rows[r].consumed)
  }

  lemma {:induction false} InsertAllGrows(s: Server, device: string, opks: seq<(int, Bytes)>)
    requires forall r :: r in s.rows ==> r < s.nextRow
    ensures RowsGrow(s, InsertAll(s, device, opks))
  {
    if opks != [] {
      InsertAllGrows(s, device, opks[..|opks| - 1]);
    }
  }

  /** A lock after a step was there before, or is the one the step took. */
  lemma LocksComeFrom(s: Server, s': Server, taken: Option<nat>, row: nat)
    requires forall tx :: tx in s'.txs ==> (tx in s.txs && s.txs[tx] == s'.txs[tx]) || s'.txs[tx].picked == taken
    ensures Locked(s', row) ==> Locked(s, row) || taken == Some(row)
  {
    if Locked(s', row) {
      var tx :| tx in s'.txs && s'.txs[tx].picked == Some(row);
      assert tx in s.txs && s.txs[tx] == s'.txs[tx] ==> Locked(s, row);
    }
  }

  lemma GrowthKeepsInv(s: Server, s': Server)
    requires Inv(s) && RowsGrow(s, s')
    ensures Inv(s')
  {
    forall i | 0 <= i < |s'.answers| ensures AnswerOk(s', s'.answers[i]) {
      assert AnswerOk(s, s.answers[i]);
      if s.answers[i].row.Some? {
        LocksComeFrom(s, s', None, s.answers[i].row.value);
      }
    }
    forall tx | tx in s'.txs ensures PickOk(s', tx) {
      assert PickOk(s, tx);
    }
  }

  lemma SelectKeepsInv(s: Server, tx: nat, device: string)
    requires Inv(s) && tx !in s.txs
    ensures Inv(Do(s, Select(tx, device)))
  {
    var s', picked := Do(s, Select(tx, device)), Pick(s, device, 0);
    forall t | t in s'.txs ensures PickOk(s', t) {
      assert t in s.txs ==> PickOk(s, t);
    }
    forall i | 0 <= i < |s'.answers| ensures AnswerOk(s', s'.answers[i]) {
      var a := s.answers[i];
      assert AnswerOk(s, a);
      if a.row.Some? {
        LocksComeFrom(s, s', picked, a.row.value);
      }
    }
    forall t, t' | t in s'.txs && t' in s'.txs && t != t' && s'.txs[t].picked.Some?
      ensures s'.txs[t].picked != s'.txs[t'].picked
    {
      if picked.Some? {
        assert !Locked(s, picked.value);
      }
    }
  }

  lemma CommitKeepsInv(s: Server, tx: nat)
    requires Inv(s) && tx in s.txs
    ensures Inv(Do(s, Commit(tx)))
  {
    var s', t := Do(s, Commit(tx)), s.txs[tx];
    assert PickOk(s, tx);
    forall u | u in s'.txs ensures PickOk(s', u) {
      assert PickOk(s, u);
    }
    forall i | 0 <= i < |s'.answers| ensures AnswerOk(s', s'.answers[i]) {
      var a := s'.answers[i];
      if i < |s.answers| {
        assert AnswerOk(s, a);
      }
      if a.row.Some? && i < |s.answers| {
        LocksComeFrom(s, s', None, a.row.value);
      }
    }
    forall i, j | 0 <= i < j < |s'.answers| && s'.answers[i].row.Some?
      ensures s'.answers[i].row != s'.answers[j].row
    {
      assert AnswerOk(s, s.answers[i]);
      if t.picked.Some? {
        assert Locked(s, t.picked.value);
      }
    }
  }

  lemma ShrinkKeepsInv(s: Server, step: Step)
    requires Inv(s) && (step.Abort? || step.PurgeConsumed?)
    ensures Inv(Do(s, step))
  {
    var s' := Do(s, step);
    forall u | u in s'.txs ensures PickOk(s', u) {
      assert PickOk(s, u);
    }
    forall i | 0 <= i < |s'.answers| ensures AnswerOk(s', s'.answers[i]) {
      var a := s.answers[i];
      assert AnswerOk(s, a);
      if a.row.Some? {
        LocksComeFrom(s, s', None, a.row.value);
      }
    }
  }

  lemma {:induction false} RunKeepsInv(steps: seq<Step>)
    ensures Inv(DoAll(EMPTY, steps))
  {
    if steps != [] {
      var s, step := DoAll(EMPTY, steps[..|steps| - 1]), steps[|steps| - 1];
      RunKeepsInv(steps[..|steps| - 1]);
      match step
      case Upload(device, opks) =>
        if |opks| <= 100 {
          InsertAllGrows(s, device, opks[..WellFormed(opks)]);
          GrowthKeepsInv(s, InsertAll(s, device, opks[..WellFormed(opks)]));
        }
      case Select(tx, device) => if tx !in s.txs { SelectKeepsInv(s, tx, device); }
      case Commit(tx) => if tx in s.txs { CommitKeepsInv(s, tx); }
      case Abort(_) => ShrinkKeepsInv(s, step);
      case PurgeConsumed(_) => ShrinkKeepsInv(s, step);
    }
  }

  /** Over any interleaving of uploads, fetch transactions and purges, no row reaches two answered bundles. */
  lemma EachRowServesOnce(steps: seq<Step>, i: nat, j: nat)
    requires i < j < |DoAll(EMPTY, steps).answers|
    ensures var a := DoAll(EMPTY, steps).answers; a[i].row.Some? ==> a[i].row != a[j].row
  {
    RunKeepsInv(steps);
  }

  /**
   Two concurrent transactions never sit on one row, and a transaction goes
   without a prekey only if every unconsumed row of the device is locked.
   */
  lemma SelectionIsExclusive(steps: seq<Step>, tx: nat, device: string)
    requires tx !in DoAll(EMPTY, steps).txs
    ensures var s := DoAll(EMPTY, steps);
            var picked := Do(s, Select(tx, device)).txs[tx].picked;
            && (picked.Some? ==> Free(s, device, picked.value)
                                 && forall k: nat :: k < picked.value ==> !Free(s, device, k))
            && (picked.Some? ==> forall t :: t in s.txs ==> s.txs[t].picked != picked)
            && (picked.None? ==> forall r :: r in s.rows && s.rows[r].device == device && !s.rows[r].consumed ==> Locked(s, r))
  {
    var s := DoAll(EMPTY, steps);
    RunKeepsInv(steps);
    if Pick(s, device, 0).None? {
      forall r | r in s.rows && s.rows[r].device == device && !s.rows[r].consumed ensures Locked(s, r) {
        assert !Free(s, device, r);
      }
    }
  }

  // ---- What is handed out was uploaded ---------------------------------------------

  /** `step` uploads the key `opk` for `device`: among the first 100 or fewer, before any key of another length. */
  predicate Uploads(step: Step, device: string, opk: (int, Bytes))
  {
    && step.Upload? && step.device == device && |step.opks| <= 100
    && exists k :: 0 <= k < |step.opks| && step.opks[k] == opk && forall m :: 0 <= m <= k ==> |step.opks[m].1| == 32
  }

  predicate Uploaded(steps: seq<Step>, device: string, opk: (int, Bytes))
  {
    exists i :: 0 <= i < |steps| && Uploads(steps[i], device, opk)
  }

  lemma {:induction false} WellFormedIsPrefix(opks: seq<(int, Bytes)>)
    ensures forall k :: 0 <= k < WellFormed(opks) ==> |opks[k].1| == 32
    ensures WellFormed(opks) < |opks| ==> |opks[WellFormed(opks)].1| != 32
  {
    if opks != [] && |opks[0].1| == 32 {
      WellFormedIsPrefix(opks[1..]);
      assert forall k :: 0 < k < WellFormed(opks) ==> opks[k] == opks[1..][k - 1];
    }
  }

  /** The row is an old one, or carries one of the inserted keys. */
  predicate ComesFrom(s: Server, s': Server, device: string, opks: seq<(int, Bytes)>, r: nat)
    requires r in s'.rows
  {
    || (r in s.rows && s'.rows[r] == s.rows[r])
    || (s'.rows[r].device == device && !s'.rows[r].consumed && (s'.rows[r].prekeyId, s'.rows[r].pubkey) in opks)
  }

  lemma {:induction false} InsertAllStores(s: Server, device: string, opks: seq<(int, Bytes)>)
    requires forall r :: r in s.rows ==> r < s.nextRow
    ensures forall r :: r in InsertAll(s, device, opks).rows ==> ComesFrom(s, InsertAll(s, device, opks), device, opks, r)
    ensures forall k :: 0 <= k < |opks| ==> Known(InsertAll(s, device, opks).rows, device, opks[k].0)
  {
    if opks != [] {
      var n := |opks| - 1;
      var s1, s' := InsertAll(s, device, opks[..n]), InsertAll(s, device, opks);
      InsertAllGrows(s, device, opks[..n]);
      InsertAllStores(s, device, opks[..n]);
      InsertStores(s1, device, opks[n]);
      assert s' == Insert(s1, device, opks[n]);
      hide Insert, InsertAll;
      forall k | 0 <= k < n ensures Known(s'.rows, device, opks[k].0) {
        assert opks[..n][k] == opks[k];
        var r :| r in s1.rows && s1.rows[r].device == device && s1.rows[r].prekeyId == opks[k].0;
        assert s'.rows[r] == s1.rows[r];
      }
      forall r | r in s'.rows ensures ComesFrom(s, s', device, opks, r) {
        assert r in s1.rows ==> ComesFrom(s, s1, device, opks[..n], r);
      }
    }
  }

  lemma InsertStores(s: Server, device: string, opk: (int, Bytes))
    requires forall r :: r in s.rows ==> r < s.nextRow
    ensures var s' := Insert(s, device, opk);
            && Known(s'.rows, device, opk.0)
            && (forall r :: r in s.rows ==> r in s'.rows && s'.rows[r] == s.rows[r])
            && (forall r :: r in s'.rows && r !in s.rows ==> s'.rows[r] == OpkRow(device, opk.0, opk.1, false))
  {
    var s' := Insert(s, device, opk);
    if !Known(s.rows, device, opk.0) {
      assert s'.rows[s.nextRow].device == device && s'.rows[s.nextRow].prekeyId == opk.0;
    }
  }

  lemma {:induction false} RowsAreUploaded(steps: seq<Step>, r: nat)
    requires r in DoAll(EMPTY, steps).rows
    ensures var row := DoAll(EMPTY, steps).rows[r]; Uploaded(steps, row.device, (row.prekeyId, row.pubkey))
  {
    var n := |steps| - 1;
    var s, last := DoAll(EMPTY, steps[..n]), steps[n];
    var row := DoAll(EMPTY, steps).rows[r];
    var opk := (row.prekeyId, row.pubkey);
    RunKeepsInv(steps[..n]);
    if r in s.rows && (s.rows[r].device, s.rows[r].prekeyId, s.rows[r].pubkey) == (row.device, row.prekeyId, row.pubkey) {
      RowsAreUploaded(steps[..n], r);
      var i :| 0 <= i < n && Uploads(steps[..n][i], row.device, opk);
      assert Uploads(steps[i], row.device, opk);
    } else {
      assert last.Upload? && |last.opks| <= 100;
      var stored := last.opks[..WellFormed(last.opks)];
      InsertAllStores(s, last.device, stored);
      assert ComesFrom(s, DoAll(EMPTY, steps), last.device, stored, r);
      WellFormedIsPrefix(last.opks);
      var k :| 0 <= k < |stored| && stored[k] == opk;
      assert last.opks[k] == opk;
      assert Uploads(steps[n], row.device, opk);
    }
  }

  /**
   In any run, a fetch that locked a row answers, when it commits, with that
   row's id and key, for the device that was asked for, and some upload of that
   device contained the pair.
   */
  lemma CommitServesUploaded(steps: seq<Step>, tx: nat)
    requires tx in DoAll(EMPTY, steps).txs
    ensures var s := DoAll(EMPTY, steps);
            var a := Do(s, Commit(tx)).answers[|s.answers|];
            && a.device == s.txs[tx].device && a.row == s.txs[tx].picked
            && (a.opk.Some? <==> a.row.Some?)
            && (a.row.Some? ==>
                  && a.row.value in s.rows
                  && a.opk.value == (s.rows[a.row.value].prekeyId, s.rows[a.row.value].pubkey)
                  && Uploaded(steps, a.device, a.opk.value))
  {
    var s := DoAll(EMPTY, steps);
    RunKeepsInv(steps);
    assert PickOk(s, tx);
    if s.txs[tx].picked.Some? {
      RowsAreUploaded(steps, s.txs[tx].picked.value);
    }
  }

  /** An upload leaves every id up to the first bad key known, and stores the first key of a new id as it came. */
  lemma UploadIsStored(steps: seq<Step>, device: string, opks: seq<(int, Bytes)>, k: nat)
    requires |opks| <= 100 && k < |opks| && forall m :: 0 <= m <= k ==> |opks[m].1| == 32
    ensures var s := DoAll(EMPTY, steps);
            var s' := Do(s, Upload(device, opks));
            && Known(s'.rows, device, opks[k].0)
            && (!Known(s.rows, device, opks[k].0) && (forall m :: 0 <= m < |opks| && m != k ==> opks[m].0 != opks[k].0) ==>
                  exists r :: r in s'.rows && s'.rows[r] == OpkRow(device, opks[k].0, opks[k].1, false))
  {
    var s := DoAll(EMPTY, steps);
    var n := WellFormed(opks);
    RunKeepsInv(steps);
    WellFormedIsPrefix(opks);
    assert k < n;
    InsertAllStores(s, device, opks[..n]);
    var s' := InsertAll(s, device, opks[..n]);
    hide InsertAll, Insert, Inv, WellFormed;
    assert opks[..n][k] == opks[k];
    var r :| r in s'.rows && s'.rows[r].device == device && s'.rows[r].prekeyId == opks[k].0;
    if !Known(s.rows, device, opks[k].0) && (forall m :: 0 <= m < |opks| && m != k ==> opks[m].0 != opks[k].0) {
      assert ComesFrom(s, s', device, opks[..n], r);
      var m :| 0 <= m < n && opks[..n][m] == (s'.rows[r].prekeyId, s'.rows[r].pubkey);
      assert m == k;
      assert s'.rows[r] == OpkRow(device, opks[k].0, opks[k].1, false);
    }
  }

  /** A fetch that is given up leaves no answer and no lock: the row it held can be handed out next. */
  lemma AbortReleases(steps: seq<Step>, tx: nat)
    requires tx in DoAll(EMPTY, steps).txs && DoAll(EMPTY, steps).txs[tx].picked.Some?
    ensures var s, s' := DoAll(EMPTY, steps), Do(DoAll(EMPTY, steps), Abort(tx));
            && Free(s', s.txs[tx].device, s.txs[tx].picked.value) && s'.rows == s.rows && s'.answers == s.answers
  {
    RunKeepsInv(steps);
    assert PickOk(DoAll(EMPTY, steps), tx);
  }

  /** And a used one goes with the first sweep that is for it. */
  lemma UsedKeysGo(s: Server, aged: set<nat>, r: nat)
    requires r in s.rows && s.rows[r].consumed && r in aged
    ensures r !in Do(s, PurgeConsumed(aged)).rows
  {
  }

  /** A row stays locked until the fetch that holds it commits or is given up. */
  lemma LocksHold(s: Server, step: Step, tx: nat)
    requires tx in s.txs && step != Commit(tx) && step != Abort(tx)
    ensures tx in Do(s, step).txs && Do(s, step).txs[tx] == s.txs[tx]
  {
    if step.Upload? {
      InsertAllKeepsTxs(s, step.device, step.opks[..WellFormed(step.opks)]);
    }
  }

  lemma {:induction false} InsertAllKeepsTxs(s: Server, device: string, opks: seq<(int, Bytes)>)
    ensures InsertAll(s, device, opks).txs == s.txs
  {
    if opks != [] {
      InsertAllKeepsTxs(s, device, opks[..|opks| - 1]);
    }
  }

  /** A key nobody was given stays: only the commit of a fetch that locked a row uses it up, and no sweep takes it before. */
  lemma UnusedKeysStay(steps: seq<Step>, step: Step, r: nat)
    requires r in DoAll(EMPTY, steps).rows && !DoAll(EMPTY, steps).rows[r].consumed
    ensures var s, s' := DoAll(EMPTY, steps), Do(DoAll(EMPTY, steps), step);
            && r in s'.rows && s'.rows[r] == s.rows[r].(consumed := s'.rows[r].consumed)
            && (s'.rows[r].consumed <==> step.Commit? && step.tx in s.txs && s.txs[step.tx].picked == Some(r))
  {
    var s := DoAll(EMPTY, steps);
    RunKeepsInv(steps);
    if step.Upload? {
      InsertAllGrows(s, step.device, step.opks[..WellFormed(step.opks)]);
    }
  }

  // ---- The handlers over the stored table ------------------------------------------

  class PrekeyStore {
    var server: Server

    constructor ()
      ensures server == EMPTY
    {
      server := EMPTY;
    }

    /** A bad key stops the loop; the keys before it stay inserted. */
    method PrekeysUpload(device: string, opks: seq<(int, Bytes)>) returns (status: Status)
      modifies this
      ensures server == Do(old(server), Upload(device, opks))
      ensures status == if |opks| > 100 then TooMany else if WellFormed(opks) < |opks| then BadKey else Accepted
    {
      if |opks| > 100 {
        return TooMany;
      }
      var i := 0;
      while i < |opks|
        invariant 0 <= i <= |opks|
        invariant forall k :: 0 <= k < i ==> |opks[k].1| == 32
        invariant server == InsertAll(old(server), device, opks[..i])
      {
        if |opks[i].1| != 32 {
          WellFormedUpTo(opks, i);
          return BadKey;
        }
        assert opks[..i + 1][..i] == opks[..i];
        server := Insert(server, device, opks[i]);
        i := i + 1;
      }
      WellFormedUpTo(opks, i);
      return Accepted;
    }

    method PrekeysFetchSelect(tx: nat, device: string)
      requires tx !in server.txs
      modifies this
      ensures server == Do(old(server), Select(tx, device))
    {
      var row := 0;
      while row < server.nextRow && !Free(server, device, row)
        invariant 0 <= row <= server.nextRow && server == old(server)
        invariant Pick(server, device, 0) == Pick(server, device, row)
      {
        row := row + 1;
      }
      var picked := if row < server.nextRow then Some(row) else None;
      server := server.(txs := server.txs[tx := Tx(device, picked)]);
    }

    method PrekeysFetchCommit(tx: nat) returns (a: Answer)
      requires tx in server.txs
      modifies this
      ensures server == Do(old(server), Commit(tx)) && server.answers == old(server).answers + [a]
    {
      var t := server.txs[tx];
      a := AnswerOf(server, t);
      if t.picked.Some? && t.picked.value in server.rows {
        var row := t.picked.value;
        server := server.(rows := server.rows[row := server.rows[row].(consumed := true)]);
      }
      server := server.(txs := server.txs - {tx}, answers := server.answers + [a]);
    }
  }

  // ---- The device's private halves ------------------------------------------------

  datatype DeviceStep = InsertKeys(keys: seq<(int, nat)>) | Consume(id: int)

  /** The local table by prekey id, and the private halves given to responder runs. */
  datatype Device = Device(keys: map<int, nat>, served: seq<nat>)

  /** INSERT with ConflictAlgorithm.ignore. */
  function InsertKeysInto(keys: map<int, nat>, added: seq<(int, nat)>): map<int, nat>
  {
    if added == [] then keys
    else
      var before := InsertKeysInto(keys, added[..|added| - 1]);
      var last := added[|added| - 1];
      if last.0 in before then before else before[last.0 := last.1]
  }

  function DeviceDo(d: Device, step: DeviceStep): Device
  {
    match step
    case InsertKeys(keys) => d.(keys := InsertKeysInto(d.keys, keys))
    case Consume(id) => if id in d.keys then Device(d.keys - {id}, d.served + [d.keys[id]]) else d
  }

  function DeviceRun(steps: seq<DeviceStep>): Device
  {
    if steps == [] then Device(map[], []) else DeviceDo(DeviceRun(steps[..|steps| - 1]), steps[|steps| - 1])
  }

  /** The private halves generated so far. */
  function Generated(steps: seq<DeviceStep>): seq<nat>
  {
    if steps == [] then []
    else Generated(steps[..|steps| - 1])
         + (if steps[|steps| - 1].InsertKeys? then Halves(steps[|steps| - 1].keys) else [])
  }

  function Halves(keys: seq<(int, nat)>): seq<nat>
  {
    seq(|keys|, i requires 0 <= i < |keys| => keys[i].1)
  }

  predicate Distinct(s: seq<nat>) { forall i, j :: 0 <= i < j < |s| ==> s[i] != s[j] }

  /** Every half is in the table under one id or was served once, never both. */
  predicate DeviceInv(d: Device, made: seq<nat>)
  {
    && (forall id :: id in d.keys ==> d.keys[id] in made && d.keys[id] !in d.served)
    && (forall a, b :: a in d.keys && b in d.keys && a != b ==> d.keys[a] != d.keys[b])
    && (forall x :: x in d.served ==> x in made)
    && Distinct(d.served)
  }

  lemma {:induction false} InsertKeepsDevice(d: Device, made: seq<nat>, keys: seq<(int, nat)>)
    requires DeviceInv(d, made) && Distinct(made + Halves(keys))
    ensures DeviceInv(d.(keys := InsertKeysInto(d.keys, keys)), made + Halves(keys))
  {
    if keys != [] {
      var n := |keys| - 1;
      var init := made + Halves(keys[..n]);
      assert made + Halves(keys) == init + [keys[n].1];
      assert forall i :: 0 <= i < |init| ==> init[i] == (made + Halves(keys))[i];
      InsertKeepsDevice(d, made, keys[..n]);
      var d' := d.(keys := InsertKeysInto(d.keys, keys[..n]));
      assert (made + Halves(keys))[|init|] == keys[n].1;
      assert keys[n].1 !in init;
      assert forall x :: x in init ==> x in made + Halves(keys);
    } else {
      assert made + Halves(keys) == made;
    }
  }

  lemma {:induction false} DeviceRunKeeps(steps: seq<DeviceStep>)
    requires Distinct(Generated(steps))
    ensures DeviceInv(DeviceRun(steps), Generated(steps))
  {
    if steps != [] {
      var init, last := steps[..|steps| - 1], steps[|steps| - 1];
      var made := Generated(init);
      assert forall i :: 0 <= i < |made| ==> made[i] == Generated(steps)[i];
      DeviceRunKeeps(init);
      match last
      case InsertKeys(keys) => InsertKeepsDevice(DeviceRun(init), made, keys);
      case Consume(id) => assert Generated(steps) == made;
    }
  }

  /** With fresh halves, whatever ids they are filed under, each half serves at most one responder run. */
  lemma EachHalfServesOnce(steps: seq<DeviceStep>, i: nat, j: nat)
    requires Distinct(Generated(steps)) && i < j < |DeviceRun(steps).served|
    ensures DeviceRun(steps).served[i] != DeviceRun(steps).served[j]
  {
    DeviceRunKeeps(steps);
  }

  /** Filing another half under a taken id changes nothing. */
  lemma FiledHalfStays(d: Device, id: int, half: nat)
    requires id in d.keys
    ensures DeviceDo(d, InsertKeys([(id, half)])) == d
  {
    assert InsertKeysInto(d.keys, [(id, half)][..0]) == d.keys;
  }

  /** A half that was filed under a free id serves the next bootstrap that names the id, and none after it. */
  lemma ServesOnRequest(d: Device, id: int, half: nat)
    requires id !in d.keys
    ensures var d1 := DeviceDo(d, InsertKeys([(id, half)]));
            var d2 := DeviceDo(d1, Consume(id));
            && d2.served == d.served + [half] && d2.keys == d.keys
            && DeviceDo(d2, Consume(id)) == d2
  {
    assert InsertKeysInto(d.keys, [(id, half)][..0]) == d.keys;
    assert InsertKeysInto(d.keys, [(id, half)]) == d.keys[id := half];
    assert d.keys[id := half] - {id} == d.keys;
  }
}
