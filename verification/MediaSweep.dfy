/** backend/internal/retention/worker.go, purgeMedia: keys first, then the blob, then the row. */
module MediaSweep {
  import opened Basics

  datatype Blob = Blob(s3Key: string, createdAt: int)

  /** media_blobs, media_keys as (media, device) pairs, and the object store. */
  datatype Media = Media(blobs: map<string, Blob>, keys: set<(string, string)>, objects: set<string>)

  /** Which of the three effects of an entry fail. */
  datatype Faults = Faults(keys: bool, blob: bool, row: bool)

  const LIMIT: nat := 500

  function Expired(m: Media, ttl: int, now: int): set<string>
  {
    set id | id in m.blobs && m.blobs[id].createdAt < now - ttl
  }

  /** SELECT ... LIMIT 500, without an order: any selection of that size. */
  predicate Batch(m: Media, ttl: int, now: int, ids: seq<string>)
  {
    && (forall i :: 0 <= i < |ids| ==> ids[i] in Expired(m, ttl, now))
    && (forall i, j :: 0 <= i < j < |ids| ==> ids[i] != ids[j])
    && |ids| == (if |Expired(m, ttl, now)| < LIMIT then |Expired(m, ttl, now)| else LIMIT)
  }

  function KeysOf(m: Media, id: string): set<(string, string)>
  {
    set k | k in m.keys && k.0 == id
  }

  function DropKeys(m: Media, id: string): Media { m.(keys := m.keys - KeysOf(m, id)) }

  function DropObject(m: Media, s3Key: string): Media { m.(objects := m.objects - {s3Key}) }

  /** The row takes its remaining keys along: media_keys cascades. */
  function DropRow(m: Media, id: string): Media { DropKeys(m, id).(blobs := m.blobs - {id}) }

  /** The states an entry passes through, one per effect that succeeds; a failed key delete skips the rest. */
  function Stages(m: Media, id: string, s3Key: string, f: Faults): (st: seq<Media>)
    ensures |st| > 0
  {
    if f.keys then [m]
    else
      var m1 := DropKeys(m, id);
      var m2 := if f.blob then m1 else DropObject(m1, s3Key);
      var m3 := if f.row then m2 else DropRow(m2, id);
      [m, m1, m2, m3]
  }

  function SweepOne(m: Media, id: string, s3Key: string, f: Faults): Media
  {
    var st := Stages(m, id, s3Key, f);
    st[|st| - 1]
  }

  function SweepAll(m: Media, ids: seq<string>, s3Keys: seq<string>, faults: seq<Faults>): Media
    requires |ids| == |s3Keys| == |faults|
  {
    if ids == [] then m
    else
      var n := |ids| - 1;
      SweepOne(SweepAll(m, ids[..n], s3Keys[..n], faults[..n]), ids[n], s3Keys[n], faults[n])
  }

  function S3Keys(m: Media, ids: seq<string>): seq<string>
    requires forall i :: 0 <= i < |ids| ==> ids[i] in m.blobs
  {
    seq(|ids|, i requires 0 <= i < |ids| => m.blobs[ids[i]].s3Key)
  }

  /** One sweep over a batch; the S3 keys are read before anything is deleted. */
  function Sweep(m: Media, ids: seq<string>, faults: seq<Faults>): Media
    requires |faults| == |ids| && forall i :: 0 <= i < |ids| ==> ids[i] in m.blobs
  {
    SweepAll(m, ids, S3Keys(m, ids), faults)
  }

  /** A key row belongs to a blob row, and S3 keys are unique. */
  predicate Schema(m: Media)
  {
    && (forall k :: k in m.keys ==> k.0 in m.blobs)
    && (forall a, b :: a in m.blobs && b in m.blobs && a != b ==> m.blobs[a].s3Key != m.blobs[b].s3Key)
  }

  /** `m` is `m0` with nothing added, and every object that is gone from it left no wrapped key behind. */
  predicate ErasedFirst(m0: Media, m: Media)
  {
    && (forall id :: id in m.blobs ==> id in m0.blobs && m.blobs[id] == m0.blobs[id])
    && m.keys <= m0.keys && m.objects <= m0.objects
    && (forall id :: id in m0.blobs && m0.blobs[id].s3Key in m0.objects && m0.blobs[id].s3Key !in m.objects ==>
                       KeysOf(m, id) == {})
  }

  /** Whatever fails, and wherever the worker stops, erased blobs have no keys: after every single effect. */
  lemma EveryStageErasesFirst(m0: Media, m: Media, id: string, f: Faults, i: nat)
    requires Schema(m0) && ErasedFirst(m0, m) && id in m.blobs && i < |Stages(m, id, m.blobs[id].s3Key, f)|
    ensures ErasedFirst(m0, Stages(m, id, m.blobs[id].s3Key, f)[i])
  {
    var m' := Stages(m, id, m.blobs[id].s3Key, f)[i];
    forall k | k in m0.blobs && m0.blobs[k].s3Key in m0.objects && m0.blobs[k].s3Key !in m'.objects
      ensures KeysOf(m', k) == {}
    {
      if k != id {
        assert KeysOf(m, k) == {};
        assert KeysOf(m', k) <= KeysOf(m, k);
      }
    }
  }

  lemma SweepOneErasesFirst(m0: Media, m: Media, id: string, f: Faults)
    requires Schema(m0) && ErasedFirst(m0, m) && id in m.blobs
    ensures ErasedFirst(m0, SweepOne(m, id, m.blobs[id].s3Key, f))
    ensures Schema(m) ==> Schema(SweepOne(m, id, m.blobs[id].s3Key, f))
    ensures forall k :: k in m.blobs && k != id ==> k in SweepOne(m, id, m.blobs[id].s3Key, f).blobs
  {
    EveryStageErasesFirst(m0, m, id, f, |Stages(m, id, m.blobs[id].s3Key, f)| - 1);
  }

  class MediaStore {
    var media: Media

    constructor (m: Media)
      ensures media == m
    {
      media := m;
    }

    method DeleteKeys(id: string, fails: bool) returns (ok: bool)
      modifies this
      ensures ok == !fails && media == if fails then old(media) else DropKeys(old(media), id)
    {
      if !fails {
        media := DropKeys(media, id);
      }
      return !fails;
    }

    /** Deleting the object of `id` is only ever attempted when no wrapped key of it is left. */
    method DeleteObject(id: string, s3Key: string, fails: bool)
      requires KeysOf(media, id) == {}
      modifies this
      ensures media == if fails then old(media) else DropObject(old(media), s3Key)
    {
      if !fails {
        media := DropObject(media, s3Key);
      }
    }

    method DeleteRow(id: string, fails: bool)
      modifies this
      ensures media == if fails then old(media) else DropRow(old(media), id)
    {
      if !fails {
        media := DropRow(media, id);
      }
    }

    /** The body of the loop: a failed key delete skips the rest, a failed blob delete does not. */
    method SweepEntry(id: string, s3Key: string, f: Faults)
      modifies this
      ensures media == SweepOne(old(media), id, s3Key, f)
    {
      var ok := DeleteKeys(id, f.keys);
      if ok {
        DeleteObject(id, s3Key, f.blob);
        DeleteRow(id, f.row);
      }
    }

    /** For every batch and every pattern of failures. */
    method PurgeMedia(ttl: int, now: int, ids: seq<string>, faults: seq<Faults>)
      requires Schema(media) && Batch(media, ttl, now, ids) && |faults| == |ids|
      modifies this
      ensures media == Sweep(old(media), ids, faults)
      ensures Schema(media) && ErasedFirst(old(media), media)
    {
      hide SweepOne, Schema;
      var s3Keys := S3Keys(media, ids);
      for i := 0 to |ids|
        invariant media == SweepAll(old(media), ids[..i], s3Keys[..i], faults[..i])
        invariant Schema(media) && ErasedFirst(old(media), media)
        invariant forall k :: i <= k < |ids| ==> ids[k] in media.blobs
      {
        SweepOneErasesFirst(old(media), media, ids[i], faults[i]);
        assert ids[..i + 1][..i] == ids[..i] && s3Keys[..i + 1][..i] == s3Keys[..i] && faults[..i + 1][..i] == faults[..i];
        SweepEntry(ids[i], s3Keys[i], faults[i]);
      }
      assert ids[..|ids|] == ids && s3Keys[..|ids|] == s3Keys && faults[..|ids|] == faults;
    }
  }

  // ---- Any number of sweeps -----------------------------------------------------

  datatype Tick = Tick(ttl: int, now: int, ids: seq<string>, faults: seq<Faults>)

  /** Every tick selects a batch of what is there by then. */
  predicate Ticks(m: Media, ticks: seq<Tick>)
    decreases |ticks|
  {
    ticks == [] ||
    (var t := ticks[0];
     && Batch(m, t.ttl, t.now, t.ids) && |t.faults| == |t.ids|
     && Ticks(Sweep(m, t.ids, t.faults), ticks[1..]))
  }

  function SweepRun(m: Media, ticks: seq<Tick>): Media
    requires Ticks(m, ticks)
    decreases |ticks|
  {
    if ticks == [] then m else SweepRun(Sweep(m, ticks[0].ids, ticks[0].faults), ticks[1..])
  }

  lemma {:induction false} SweepErasesFirst(m: Media, ids: seq<string>, faults: seq<Faults>)
    requires Schema(m) && |faults| == |ids|
    requires forall i :: 0 <= i < |ids| ==> ids[i] in m.blobs
    requires forall i, j :: 0 <= i < j < |ids| ==> ids[i] != ids[j]
    ensures var m' := Sweep(m, ids, faults);
            && Schema(m') && ErasedFirst(m, m')
            && forall b :: b in m.blobs && b !in ids ==> b in m'.blobs
  {
    if ids != [] {
      var n := |ids| - 1;
      SweepErasesFirst(m, ids[..n], faults[..n]);
      assert S3Keys(m, ids)[..n] == S3Keys(m, ids[..n]);
      assert ids[n] !in ids[..n];
      SweepOneErasesFirst(m, Sweep(m, ids[..n], faults[..n]), ids[n], faults[n]);
    }
  }

  lemma ErasedFirstChains(m0: Media, m1: Media, m2: Media)
    requires Schema(m0) && Schema(m1) && ErasedFirst(m0, m1) && ErasedFirst(m1, m2)
    ensures ErasedFirst(m0, m2)
  {
    forall id | id in m0.blobs && m0.blobs[id].s3Key in m0.objects && m0.blobs[id].s3Key !in m2.objects
      ensures KeysOf(m2, id) == {}
    {
      assert KeysOf(m2, id) <= KeysOf(m1, id);
    }
  }

  /** Over any number of sweeps with any failures: every object that goes leaves no wrapped key behind. */
  lemma {:induction false} RunErasesFirst(m: Media, ticks: seq<Tick>)
    requires Schema(m) && Ticks(m, ticks)
    ensures Schema(SweepRun(m, ticks)) && ErasedFirst(m, SweepRun(m, ticks))
    decreases |ticks|
  {
    if ticks != [] {
      var m1 := Sweep(m, ticks[0].ids, ticks[0].faults);
      SweepErasesFirst(m, ticks[0].ids, ticks[0].faults);
      RunErasesFirst(m1, ticks[1..]);
      ErasedFirstChains(m, m1, SweepRun(m1, ticks[1..]));
    }
  }

  /** What goes wrong for `id` in one sweep, if it is in the batch. */
  function FaultsFor(ids: seq<string>, faults: seq<Faults>, id: string): Option<Faults>
    requires |faults| == |ids|
  {
    if ids == [] then None
    else
      var n := |ids| - 1;
      if ids[n] == id then Some(faults[n]) else FaultsFor(ids[..n], faults[..n], id)
  }

  predicate ErasesObject(t: Tick, id: string)
    requires |t.faults| == |t.ids|
  {
    var f := FaultsFor(t.ids, t.faults, id);
    f.Some? && !f.value.keys && !f.value.blob
  }

  predicate DropsRow(t: Tick, id: string)
    requires |t.faults| == |t.ids|
  {
    var f := FaultsFor(t.ids, t.faults, id);
    f.Some? && !f.value.keys && !f.value.row
  }

  lemma {:induction false} FaultsOfMember(ids: seq<string>, faults: seq<Faults>, id: string)
    requires |faults| == |ids|
    ensures FaultsFor(ids, faults, id).Some? <==> id in ids
  {
    if ids != [] {
      var n := |ids| - 1;
      FaultsOfMember(ids[..n], faults[..n], id);
      assert ids == ids[..n] + [ids[n]];
    }
  }

  lemma EntryOfOne(m: Media, id: string, s3Key: string, f: Faults, id': string, s3Key': string)
    requires id == id' <==> s3Key == s3Key'
    ensures var m' := SweepOne(m, id, s3Key, f);
            && (s3Key' in m'.objects <==> s3Key' in m.objects && !(id == id' && !f.keys && !f.blob))
            && (id' in m'.blobs <==> id' in m.blobs && !(id == id' && !f.keys && !f.row))
  {
  }

  /** What one sweep does to one blob. */
  lemma {:induction false} SweepOfOne(m: Media, t: Tick, id: string)
    requires Schema(m) && |t.faults| == |t.ids| && id in m.blobs
    requires forall i :: 0 <= i < |t.ids| ==> t.ids[i] in m.blobs
    requires forall i, j :: 0 <= i < j < |t.ids| ==> t.ids[i] != t.ids[j]
    ensures var m' := Sweep(m, t.ids, t.faults);
            && (m.blobs[id].s3Key in m'.objects <==> m.blobs[id].s3Key in m.objects && !ErasesObject(t, id))
            && (id in m'.blobs <==> !DropsRow(t, id))
    decreases |t.ids|
  {
    if t.ids != [] {
      var n := |t.ids| - 1;
      var init := t.(ids := t.ids[..n], faults := t.faults[..n]);
      SweepOfOne(m, init, id);
      FaultsOfMember(init.ids, init.faults, id);
      assert S3Keys(m, t.ids)[..n] == S3Keys(m, init.ids);
      EntryOfOne(Sweep(m, init.ids, init.faults), t.ids[n], m.blobs[t.ids[n]].s3Key, t.faults[n], id, m.blobs[id].s3Key);
      hide SweepOne;
    }
  }

  /** No row points to the object. */
  predicate Unreferenced(m: Media, s3Key: string)
  {
    forall id :: id in m.blobs ==> m.blobs[id].s3Key != s3Key
  }

  lemma {:induction false} SweepSparesUnreferenced(m: Media, ids: seq<string>, faults: seq<Faults>, s3Key: string)
    requires Unreferenced(m, s3Key) && |faults| == |ids| && forall i :: 0 <= i < |ids| ==> ids[i] in m.blobs
    ensures s3Key in Sweep(m, ids, faults).objects <==> s3Key in m.objects
  {
    if ids != [] {
      var n := |ids| - 1;
      SweepSparesUnreferenced(m, ids[..n], faults[..n], s3Key);
      assert S3Keys(m, ids)[..n] == S3Keys(m, ids[..n]);
    }
  }

  /** A blob without a row is in no later batch, and its object is never touched again. */
  lemma {:induction false} OrphanIsForever(m: Media, ticks: seq<Tick>, id: string, s3Key: string)
    requires Schema(m) && Ticks(m, ticks) && id !in m.blobs && Unreferenced(m, s3Key)
    ensures id !in SweepRun(m, ticks).blobs && Unreferenced(SweepRun(m, ticks), s3Key)
    ensures s3Key in SweepRun(m, ticks).objects <==> s3Key in m.objects
    ensures forall t :: t in ticks ==> |t.faults| == |t.ids| && id !in t.ids
    decreases |ticks|
  {
    if ticks != [] {
      SweepErasesFirst(m, ticks[0].ids, ticks[0].faults);
      SweepSparesUnreferenced(m, ticks[0].ids, ticks[0].faults, s3Key);
      OrphanIsForever(Sweep(m, ticks[0].ids, ticks[0].faults), ticks[1..], id, s3Key);
    }
  }

  predicate SomeErases(ticks: seq<Tick>, id: string)
  {
    exists t :: t in ticks && |t.faults| == |t.ids| && ErasesObject(t, id)
  }

  predicate SomeDrops(ticks: seq<Tick>, id: string)
  {
    exists t :: t in ticks && |t.faults| == |t.ids| && DropsRow(t, id)
  }

  /** What any number of sweeps does to one blob. */
  lemma {:induction false} RunOfOne(m: Media, ticks: seq<Tick>, id: string)
    requires Schema(m) && Ticks(m, ticks) && id in m.blobs
    ensures var m' := SweepRun(m, ticks);
            && (m.blobs[id].s3Key in m'.objects <==> m.blobs[id].s3Key in m.objects && !SomeErases(ticks, id))
            && (id in m'.blobs <==> !SomeDrops(ticks, id))
            && (id !in m'.blobs ==> Unreferenced(m', m.blobs[id].s3Key))
    decreases |ticks|
  {
    if ticks != [] {
      var first, rest := ticks[0], ticks[1..];
      var m1 := Sweep(m, first.ids, first.faults);
      SweepErasesFirst(m, first.ids, first.faults);
      SweepOfOne(m, first, id);
      assert forall t :: t in ticks <==> t == first || t in rest;
      if id in m1.blobs {
        RunOfOne(m1, rest, id);
      } else {
        OrphanIsForever(m1, rest, id, m.blobs[id].s3Key);
        forall t | t in rest ensures !ErasesObject(t, id) && !DropsRow(t, id) {
          FaultsOfMember(t.ids, t.faults, id);
        }
      }
    }
  }

  /**
   Over any number of sweeps with any failures, the object of a blob outlives
   its row exactly when some sweep dropped the row and none had deleted the
   object. Its wrapped keys are gone then, and however many sweeps follow, none
   removes the object.
   */
  lemma OrphanIff(m: Media, ticks: seq<Tick>, id: string, more: seq<Tick>)
    requires Schema(m) && Ticks(m, ticks) && id in m.blobs && m.blobs[id].s3Key in m.objects
    requires Ticks(SweepRun(m, ticks), more)
    ensures var m' := SweepRun(m, ticks);
            var orphan := m.blobs[id].s3Key in m'.objects && id !in m'.blobs;
            && (orphan <==> SomeDrops(ticks, id) && !SomeErases(ticks, id))
            && (orphan ==> KeysOf(m', id) == {} && m.blobs[id].s3Key in SweepRun(m', more).objects)
  {
    RunOfOne(m, ticks, id);
    RunErasesFirst(m, ticks);
    if id !in SweepRun(m, ticks).blobs {
      OrphanIsForever(SweepRun(m, ticks), more, id, m.blobs[id].s3Key);
    }
  }

  /** For instance: one blob, one sweep in which only the delete of the object fails. */
  lemma OrphanOccurs()
    ensures var m := Media(map["m" := Blob("k", 0)], {}, {"k"});
            var ticks := [Tick(0, 1, ["m"], [Faults(false, true, false)])];
            && Schema(m) && Ticks(m, ticks) && SomeDrops(ticks, "m") && !SomeErases(ticks, "m")
            && "k" in SweepRun(m, ticks).objects && SweepRun(m, ticks).blobs == map[]
  {
    var m := Media(map["m" := Blob("k", 0)], {}, {"k"});
    var tick := Tick(0, 1, ["m"], [Faults(false, true, false)]);
    assert Expired(m, 0, 1) == {"m"};
    assert [tick][1..] == [] && Ticks(Sweep(m, tick.ids, tick.faults), []);
    assert tick in [tick] && DropsRow(tick, "m");
    OrphanIff(m, [tick], "m", []);
    assert "m" !in SweepRun(m, [tick]).blobs;
    RunErasesFirst(m, [tick]);
  }

  // ---- Young blobs -----------------------------------------------------------

  lemma {:induction false} SweepSparesOthers(m: Media, ids: seq<string>, faults: seq<Faults>, id: string)
    requires Schema(m) && id in m.blobs && id !in ids
    requires |faults| == |ids| && forall i :: 0 <= i < |ids| ==> ids[i] in m.blobs
    ensures var m' := Sweep(m, ids, faults);
            && id in m'.blobs && m'.blobs[id] == m.blobs[id] && KeysOf(m', id) == KeysOf(m, id)
            && (m.blobs[id].s3Key in m'.objects <==> m.blobs[id].s3Key in m.objects)
  {
    if ids != [] {
      var n := |ids| - 1;
      SweepSparesOthers(m, ids[..n], faults[..n], id);
      assert S3Keys(m, ids)[..n] == S3Keys(m, ids[..n]);
      SpareOne(Sweep(m, ids[..n], faults[..n]), ids[n], m.blobs[ids[n]].s3Key, faults[n], id);
    }
  }

  lemma SpareOne(m: Media, id: string, s3Key: string, f: Faults, other: string)
    requires other != id
    ensures var m' := SweepOne(m, id, s3Key, f);
            && (other in m'.blobs <==> other in m.blobs) && (other in m.blobs ==> m'.blobs[other] == m.blobs[other])
            && KeysOf(m', other) == KeysOf(m, other)
            && forall k :: k != s3Key ==> (k in m'.objects <==> k in m.objects)
  {
  }

  /** Over any sweeps, a blob that is within the time to live at each of them keeps its row, its keys and its object. */
  lemma {:induction false} YoungBlobsStay(m: Media, ticks: seq<Tick>, id: string)
    requires Schema(m) && Ticks(m, ticks) && id in m.blobs
    requires forall t :: t in ticks ==> m.blobs[id].createdAt >= t.now - t.ttl
    ensures var m' := SweepRun(m, ticks);
            && id in m'.blobs && m'.blobs[id] == m.blobs[id] && KeysOf(m', id) == KeysOf(m, id)
            && (m.blobs[id].s3Key in m'.objects <==> m.blobs[id].s3Key in m.objects)
    decreases |ticks|
  {
    if ticks != [] {
      var t := ticks[0];
      SweepErasesFirst(m, t.ids, t.faults);
      SweepSparesOthers(m, t.ids, t.faults, id);
      YoungBlobsStay(Sweep(m, t.ids, t.faults), ticks[1..], id);
    }
  }

  /** And an error-free sweep of at most 500 older blobs leaves exactly the young ones. */
  lemma OnlyYoungBlobsStay(m: Media, ttl: int, now: int, ids: seq<string>, id: string)
    requires Batch(m, ttl, now, ids) && |Expired(m, ttl, now)| <= 500 && id in m.blobs
    ensures id in Sweep(m, ids, NoFaults(|ids|)).blobs <==> m.blobs[id].createdAt >= now - ttl
  {
    var m' := Sweep(m, ids, NoFaults(|ids|));
    OneRound(m, ttl, now, ids);
    CleanSweepRemoves(m, ids, S3Keys(m, ids), NoFaults(|ids|));
    assert Expired(m', ttl, now) == {};
    assert m.blobs[id].createdAt < now - ttl && id in m'.blobs ==> id in Expired(m', ttl, now);
  }

  // ---- Draining a backlog -----------------------------------------------------

  const NO_FAULT := Faults(false, false, false)

  function NoFaults(n: nat): seq<Faults> { seq(n, _ => NO_FAULT) }

  lemma {:induction false} CleanSweepRemoves(m: Media, ids: seq<string>, s3Keys: seq<string>, faults: seq<Faults>)
    requires |ids| == |s3Keys| == |faults| && forall i :: 0 <= i < |faults| ==> faults[i] == NO_FAULT
    ensures SweepAll(m, ids, s3Keys, faults).blobs == m.blobs - (set i | 0 <= i < |ids| :: ids[i])
  {
    if ids != [] {
      var n := |ids| - 1;
      CleanSweepRemoves(m, ids[..n], s3Keys[..n], faults[..n]);
      assert (set i | 0 <= i < |ids| :: ids[i]) == (set i | 0 <= i < n :: ids[..n][i]) + {ids[n]};
    }
  }

  lemma {:induction false} DistinctCount(ids: seq<string>)
    requires forall i, j :: 0 <= i < j < |ids| ==> ids[i] != ids[j]
    ensures |set i | 0 <= i < |ids| :: ids[i]| == |ids|
  {
    if ids != [] {
      var n := |ids| - 1;
      DistinctCount(ids[..n]);
      assert (set i | 0 <= i < |ids| :: ids[i]) == (set i | 0 <= i < n :: ids[..n][i]) + {ids[n]};
    }
  }

  /** One error-free sweep takes a full batch, or all that is expired. */
  lemma OneRound(m: Media, ttl: int, now: int, ids: seq<string>)
    requires Batch(m, ttl, now, ids)
    ensures var m' := Sweep(m, ids, NoFaults(|ids|));
            |Expired(m', ttl, now)| == |Expired(m, ttl, now)| - |ids|
  {
    var m' := Sweep(m, ids, NoFaults(|ids|));
    var taken := set i | 0 <= i < |ids| :: ids[i];
    CleanSweepRemoves(m, ids, S3Keys(m, ids), NoFaults(|ids|));
    DistinctCount(ids);
    assert taken <= Expired(m, ttl, now);
    assert Expired(m', ttl, now) == Expired(m, ttl, now) - taken;
  }

  /** `trace[i + 1]` is `trace[i]` after one error-free sweep at a fixed time, with any choice of batch. */
  ghost predicate CleanRounds(trace: seq<Media>, ttl: int, now: int)
  {
    forall i :: 0 <= i < |trace| - 1 ==> CleanRound(trace[i], trace[i + 1], ttl, now)
  }

  ghost predicate CleanRound(m: Media, m': Media, ttl: int, now: int)
  {
    exists ids :: Batch(m, ttl, now, ids) && m' == Sweep(m, ids, NoFaults(|ids|))
  }

  lemma {:induction false} BacklogAfter(trace: seq<Media>, ttl: int, now: int, k: nat)
    requires CleanRounds(trace, ttl, now) && k < |trace|
    ensures var n := |Expired(trace[0], ttl, now)|;
            |Expired(trace[k], ttl, now)| == (if n <= LIMIT * k then 0 else n - LIMIT * k)
  {
    if k > 0 {
      BacklogAfter(trace, ttl, now, k - 1);
      var m := trace[k - 1];
      assert CleanRound(trace[k - 1], trace[k - 1 + 1], ttl, now);
      var ids :| Batch(m, ttl, now, ids) && trace[k] == Sweep(m, ids, NoFaults(|ids|));
      OneRound(m, ttl, now, ids);
    }
  }

  /** A backlog of n expired blobs is gone after ceil(n/500) error-free rounds, and not before. */
  lemma ClearedInCeilRounds(trace: seq<Media>, ttl: int, now: int, k: nat)
    requires CleanRounds(trace, ttl, now) && k < |trace|
    ensures Expired(trace[k], ttl, now) == {} <==> k >= (|Expired(trace[0], ttl, now)| + 499) / 500
  {
    BacklogAfter(trace, ttl, now, k);
  }
}
