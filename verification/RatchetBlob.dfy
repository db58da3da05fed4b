/**
 The stored ratchet blob: _encodeRatchet and _decodeRatchet, which are the same
 code in mobile/lib/data/local_db.dart and admin-mobile/lib/data/local_db.dart.
 */
module RatchetBlob {
  import opened Basics
  import opened Ratchet

  type ByteRatchet = RatchetState<Bytes, Bytes, Bytes>

  // ---- Encoding -------------------------------------------------------------

  /** A length byte and the bytes; the length byte keeps the low eight bits. */
  function Put(v: Bytes): Bytes { [|v| % 0x100] + v }

  /** setUint32: the low 32 bits, most significant byte first. */
  function Uint32(n: int): Bytes
  {
    var m := n % TWO_TO_32;
    [m / 0x100_0000, m / 0x1_0000 % 0x100, m / 0x100 % 0x100, m % 0x100]
  }

  function EncodeCounters(r: ByteRatchet): Bytes { Uint32(r.nSend) + (Uint32(r.nRecv) + Uint32(r.pn)) }

  function PutThree(a: Bytes, b: Bytes, c: Bytes, rest: Bytes): Bytes { Put(a) + (Put(b) + (Put(c) + rest)) }

  function Encode(r: ByteRatchet): Bytes
  {
    PutThree(r.rootKey, r.sendChainKey, r.recvChainKey,
             PutThree(r.dhSendPriv, r.dhSendPub, r.dhRecvPub, EncodeCounters(r)))
  }

  function Take(s: Bytes): Result<(Bytes, Bytes)>
  {
    if s == [] then Err else Split(s[1..], s[0])
  }

  function TakeThree(s: Bytes): Result<(Bytes, Bytes, Bytes, Bytes)>
  {
    var (a, r1) :- Take(s);
    var (b, r2) :- Take(r1);
    var (c, r3) :- Take(r2);
    Ok((a, b, c, r3))
  }

  function GetUint32(s: Bytes): nat
    requires |s| >= 4
  {
    var b0: int, b1: int, b2: int, b3: int := s[0], s[1], s[2], s[3];
    b0 * 0x100_0000 + b1 * 0x1_0000 + b2 * 0x100 + b3
  }

  function GetCounters(s: Bytes): (int, int, int)
    requires |s| >= 12
  {
    (GetUint32(s), GetUint32(s[4..]), GetUint32(s[8..]))
  }

  function Decode(buf: Bytes): Result<ByteRatchet>
  {
    var (rk, cks, ckr, r1) :- TakeThree(buf);
    var (priv, pub, peer, r2) :- TakeThree(r1);
    var (bd, _) :- Split(r2, 12);
    var (ns, nr, pn) := GetCounters(bd);
    Ok(RatchetState(rk, cks, ckr, priv, pub, peer, ns, nr, pn))
  }

  // ---- Round trip -----------------------------------------------------------

  /** No field is too long for its length byte. */
  predicate ShortFields(r: ByteRatchet)
  {
    && |r.rootKey| < 0x100 && |r.sendChainKey| < 0x100 && |r.recvChainKey| < 0x100
    && |r.dhSendPriv| < 0x100 && |r.dhSendPub| < 0x100 && |r.dhRecvPub| < 0x100
  }

  predicate CountersFit(r: ByteRatchet)
  {
    0 <= r.nSend < TWO_TO_32 && 0 <= r.nRecv < TWO_TO_32 && 0 <= r.pn < TWO_TO_32
  }

  function WrapCounters(r: ByteRatchet): ByteRatchet
  {
    r.(nSend := r.nSend % TWO_TO_32, nRecv := r.nRecv % TWO_TO_32, pn := r.pn % TWO_TO_32)
  }

  lemma TakePut(v: Bytes, rest: Bytes)
    requires |v| < 0x100
    ensures Take(Put(v) + rest) == Ok((v, rest))
  {
    assert (Put(v) + rest)[1..] == v + rest;
    SplitAppend(v, rest);
  }

  lemma GetOfUint32(n: int, rest: Bytes)
    ensures GetUint32(Uint32(n) + rest) == n % TWO_TO_32
  {
    var m := n % TWO_TO_32;
    assert m / 0x1_0000 % 0x100 == m / 0x1_0000 - m / 0x100_0000 * 0x100;
    assert m / 0x100 % 0x100 == m / 0x100 - m / 0x1_0000 * 0x100;
  }

  lemma CountersReadBack(r: ByteRatchet)
    ensures |EncodeCounters(r)| == 12
    ensures GetCounters(EncodeCounters(r)) == (r.nSend % TWO_TO_32, r.nRecv % TWO_TO_32, r.pn % TWO_TO_32)
  {
    var c := EncodeCounters(r);
    assert c[4..] == Uint32(r.nRecv) + Uint32(r.pn) && c[8..] == Uint32(r.pn) + [];
    GetOfUint32(r.nSend, c[4..]);
    GetOfUint32(r.nRecv, c[8..]);
    GetOfUint32(r.pn, []);
  }

  lemma TakeThreeBack(a: Bytes, b: Bytes, c: Bytes, rest: Bytes)
    requires |a| < 0x100 && |b| < 0x100 && |c| < 0x100
    ensures TakeThree(PutThree(a, b, c, rest)) == Ok((a, b, c, rest))
  {
    TakePut(a, Put(b) + (Put(c) + rest));
    TakePut(b, Put(c) + rest);
    TakePut(c, rest);
  }

  /** The blob gives back every field, and each counter modulo 2^32. */
  lemma DecodeOfEncode(r: ByteRatchet)
    requires ShortFields(r)
    ensures Decode(Encode(r)) == Ok(WrapCounters(r))
  {
    var c := EncodeCounters(r);
    TakeThreeBack(r.rootKey, r.sendChainKey, r.recvChainKey, PutThree(r.dhSendPriv, r.dhSendPub, r.dhRecvPub, c));
    TakeThreeBack(r.dhSendPriv, r.dhSendPub, r.dhRecvPub, c);
    CountersReadBack(r);
    assert c[..12] == c;
  }

  lemma WrapIff(r: ByteRatchet)
    ensures WrapCounters(r) == r <==> CountersFit(r)
  {
  }

  /** A blob restores its ratchet if and only if the counters fit in 32 bits. */
  lemma RestoredIff(r: ByteRatchet)
    requires ShortFields(r)
    ensures Decode(Encode(r)) == Ok(r) <==> CountersFit(r)
  {
    DecodeOfEncode(r);
    WrapIff(r);
  }

  // ---- The buffers and cursors of the source ----------------------------------

  method EncodeRatchet(r: ByteRatchet) returns (b: Bytes)
    ensures b == Encode(r)
  {
    hide Uint32;
    b := [|r.rootKey| % 0x100] + r.rootKey;
    b := b + [|r.sendChainKey| % 0x100] + r.sendChainKey;
    b := b + [|r.recvChainKey| % 0x100] + r.recvChainKey;
    b := b + [|r.dhSendPriv| % 0x100] + r.dhSendPriv;
    b := b + [|r.dhSendPub| % 0x100] + r.dhSendPub;
    b := b + [|r.dhRecvPub| % 0x100] + r.dhRecvPub;
    var bd := Uint32(r.nSend) + Uint32(r.nRecv) + Uint32(r.pn);
    b := b + bd;
  }

  /** The closure `take` over the cursor `off`. */
  method TakeAt(buf: Bytes, off0: nat) returns (v: Result<Bytes>, off: nat)
    requires off0 <= |buf|
    ensures v.Ok? <==> Take(buf[off0..]).Ok?
    ensures v.Ok? ==> off <= |buf| && Take(buf[off0..]).value == (v.value, buf[off..])
  {
    off := off0;
    if off >= |buf| {
      return Err, off;
    }
    var n := buf[off];
    off := off + 1;
    assert buf[off0..][1..] == buf[off..];
    if off + n > |buf| {
      return Err, off;
    }
    v := Ok(buf[off..off + n]);
    assert buf[off..][..n] == v.value && buf[off..][n..] == buf[off + n..];
    off := off + n;
  }

  method TakeThreeAt(buf: Bytes, off0: nat) returns (v: Result<(Bytes, Bytes, Bytes)>, off: nat)
    requires off0 <= |buf|
    ensures v.Ok? <==> TakeThree(buf[off0..]).Ok?
    ensures v.Ok? ==> off <= |buf| && TakeThree(buf[off0..]).value == (v.value.0, v.value.1, v.value.2, buf[off..])
  {
    var a, o1 := TakeAt(buf, off0);
    if a.Err? { return Err, off0; }
    var b, o2 := TakeAt(buf, o1);
    if b.Err? { return Err, off0; }
    var c, o3 := TakeAt(buf, o2);
    if c.Err? { return Err, off0; }
    return Ok((a.value, b.value, c.value)), o3;
  }

  method DecodeRatchet(buf: Bytes) returns (r: Result<ByteRatchet>)
    ensures r == Decode(buf)
  {
    hide TakeThree, GetUint32;
    assert buf[0..] == buf;
    var keys, o1 := TakeThreeAt(buf, 0);
    if keys.Err? { return Err; }
    var dhs, off := TakeThreeAt(buf, o1);
    if dhs.Err? || off + 12 > |buf| { return Err; }
    var bd := buf[off..off + 12];
    assert bd == buf[off..][..12];
    var (ns, nr, pn) := GetCounters(bd);
    return Ok(RatchetState(keys.value.0, keys.value.1, keys.value.2, dhs.value.0, dhs.value.1, dhs.value.2, ns, nr, pn));
  }

  // ---- Saving and loading in the middle of a run ------------------------------

  /** HMAC, the root HKDF and X25519 on bytes, whatever they compute. */
  datatype Primitives = Primitives(
    hmac: (Bytes, byte) -> Bytes,
    root: (Bytes, Bytes) -> (Bytes, Bytes),
    dh: (Bytes, Bytes) -> Bytes)

  /** Every output is 32 bytes long. */
  ghost predicate Outputs32(k: Primitives)
  {
    && (forall ck, info :: |k.hmac(ck, info)| == 32)
    && (forall rk, dh :: |k.root(rk, dh).0| == 32 && |k.root(rk, dh).1| == 32)
  }

  datatype Call =
    | NextSendKey
    | NextRecvKey
    | RatchetReceive(peerPub: Bytes, priv: Bytes, pub: Bytes)   // the fresh pair is an input
    | SaveLoad

  /** What a call leaves behind and the message key it returns, if it returns one. */
  function Apply(k: Primitives, r: ByteRatchet, call: Call): (ByteRatchet, seq<Bytes>)
  {
    match call
    case NextSendKey => (Sent(r, k.hmac(r.sendChainKey, CHAIN_INFO)), [k.hmac(r.sendChainKey, MSG_INFO)])
    case NextRecvKey => (Received(r, k.hmac(r.recvChainKey, CHAIN_INFO)), [k.hmac(r.recvChainKey, MSG_INFO)])
    case RatchetReceive(peer, priv, pub) =>
      var (rk1, ckRecv) := k.root(r.rootKey, k.dh(r.dhSendPriv, peer));
      var (rk2, ckSend) := k.root(rk1, k.dh(priv, peer));
      (Rotated(r, rk2, ckSend, ckRecv, priv, pub, peer), [])
    case SaveLoad =>
      var loaded := Decode(Encode(r));
      (if loaded.Ok? then loaded.value else r, [])
  }

  function Run(k: Primitives, r: ByteRatchet, calls: seq<Call>): (ByteRatchet, seq<Bytes>)
    decreases |calls|
  {
    if calls == [] then (r, [])
    else
      var (r1, key) := Apply(k, r, calls[0]);
      var (r2, keys) := Run(k, r1, calls[1..]);
      (r2, key + keys)
  }

  function WithoutSaves(calls: seq<Call>): seq<Call>
  {
    if calls == [] then []
    else (if calls[0].SaveLoad? then [] else [calls[0]]) + WithoutSaves(calls[1..])
  }

  ghost predicate KeysAre32(c: Call)
  {
    c.RatchetReceive? ==> |c.peerPub| == 32 && |c.priv| == 32 && |c.pub| == 32
  }

  /** The same fields, and counters that are equal in 32 bits. */
  predicate Alike(r: ByteRatchet, r': ByteRatchet) { WrapCounters(r) == WrapCounters(r') }

  lemma ApplyKeepsShort(k: Primitives, r: ByteRatchet, call: Call)
    requires Outputs32(k) && KeysAre32(call) && ShortFields(r)
    ensures ShortFields(Apply(k, r, call).0)
    ensures call.SaveLoad? ==> Apply(k, r, call) == (WrapCounters(r), [])
  {
    if call.SaveLoad? {
      DecodeOfEncode(r);
    }
  }

  lemma NextWraps(n: int)
    ensures (n + 1) % TWO_TO_32 == if n % TWO_TO_32 == TWO_TO_32 - 1 then 0 else n % TWO_TO_32 + 1
  {
  }

  lemma ApplyKeepsAlike(k: Primitives, r: ByteRatchet, r': ByteRatchet, call: Call)
    requires Alike(r, r') && !call.SaveLoad?
    ensures Alike(Apply(k, r, call).0, Apply(k, r', call).0) && Apply(k, r, call).1 == Apply(k, r', call).1
  {
    hide Encode, Decode;
    match call
    case NextSendKey =>
      NextWraps(r.nSend);
      NextWraps(r'.nSend);
    case NextRecvKey =>
      NextWraps(r.nRecv);
      NextWraps(r'.nRecv);
    case RatchetReceive(_, _, _) =>
  }

  /** Leaving a save out of a run that starts with one, and keeping any other first call. */
  lemma WithoutFirst(calls: seq<Call>)
    requires calls != []
    ensures calls[0].SaveLoad? ==> WithoutSaves(calls) == WithoutSaves(calls[1..])
    ensures !calls[0].SaveLoad? ==>
              var w := WithoutSaves(calls); w != [] && w[0] == calls[0] && w[1..] == WithoutSaves(calls[1..])
  {
  }

  /** Two ratchets that are alike give the same keys, whether or not one of them is saved and loaded on the way. */
  lemma {:induction false} AlikeRuns(k: Primitives, r: ByteRatchet, r': ByteRatchet, calls: seq<Call>)
    requires Outputs32(k) && ShortFields(r) && Alike(r, r')
    requires forall c :: c in calls ==> KeysAre32(c)
    ensures Run(k, r, calls).1 == Run(k, r', WithoutSaves(calls)).1
    ensures Alike(Run(k, r, calls).0, Run(k, r', WithoutSaves(calls)).0)
    decreases |calls|
  {
    hide Alike, WrapCounters, ShortFields, Apply, KeysAre32;
    if calls != [] {
      WithoutFirst(calls);
      hide WithoutSaves;
      var r1, rest := Apply(k, r, calls[0]).0, calls[1..];
      ApplyKeepsShort(k, r, calls[0]);
      if calls[0].SaveLoad? {
        WrappedIsAlike(r, r');
        AlikeRuns(k, r1, r', rest);
        assert [] + Run(k, r1, rest).1 == Run(k, r1, rest).1;
      } else {
        ApplyKeepsAlike(k, r, r', calls[0]);
        AlikeRuns(k, r1, Apply(k, r', calls[0]).0, rest);
      }
    }
  }

  lemma WrappedIsAlike(r: ByteRatchet, r': ByteRatchet)
    requires Alike(r, r')
    ensures Alike(WrapCounters(r), r')
  {
  }

  /** Saving and loading at any points of any run changes no later key, nor the state in 32-bit counters. */
  lemma SavesKeepKeys(k: Primitives, r: ByteRatchet, calls: seq<Call>)
    requires Outputs32(k) && ShortFields(r)
    requires forall c :: c in calls ==> KeysAre32(c)
    ensures Run(k, r, calls).1 == Run(k, r, WithoutSaves(calls)).1
    ensures Alike(Run(k, r, calls).0, Run(k, r, WithoutSaves(calls)).0)
  {
    AlikeRuns(k, r, r, calls);
  }

  /** At each save of the run the counters fit in 32 bits. */
  predicate SavesFit(k: Primitives, r: ByteRatchet, calls: seq<Call>)
    decreases |calls|
  {
    calls == [] || ((calls[0].SaveLoad? ==> CountersFit(r)) && SavesFit(k, Apply(k, r, calls[0]).0, calls[1..]))
  }

  /** As long as they do, the whole state is that of the run without saves. */
  lemma {:induction false} SavesAreTransparent(k: Primitives, r: ByteRatchet, calls: seq<Call>)
    requires Outputs32(k) && ShortFields(r) && SavesFit(k, r, calls)
    requires forall c :: c in calls ==> KeysAre32(c)
    ensures Run(k, r, calls) == Run(k, r, WithoutSaves(calls))
    decreases |calls|
  {
    hide ShortFields, Apply, KeysAre32, CountersFit;
    if calls != [] {
      WithoutFirst(calls);
      hide WithoutSaves;
      var r1, rest := Apply(k, r, calls[0]).0, calls[1..];
      ApplyKeepsShort(k, r, calls[0]);
      SavesAreTransparent(k, r1, rest);
      if calls[0].SaveLoad? {
        WrapIff(r);
        assert [] + Run(k, r1, rest).1 == Run(k, r1, rest).1;
      }
    }
  }

  // ---- The layout, field by field ------------------------------------------------

  /** A 32-byte field behind its length byte. */
  predicate FieldAt(buf: Bytes, at: nat, v: Bytes)
  {
    at + 33 <= |buf| && buf[at] == 32 && buf[at + 1..at + 33] == v
  }

  /** Four bytes, most significant first. */
  predicate NumberAt(buf: Bytes, at: nat, n: int)
  {
    at + 4 <= |buf| &&
    (var b0: int, b1: int, b2: int, b3: int := buf[at], buf[at + 1], buf[at + 2], buf[at + 3];
     ((b0 * 256 + b1) * 256 + b2) * 256 + b3 == n)
  }

  /** Root, send chain, receive chain, own private and public key, peer's key, then the three counters. */
  lemma BlobLayout(r: ByteRatchet)
    requires |r.rootKey| == |r.sendChainKey| == |r.recvChainKey| == 32
    requires |r.dhSendPriv| == |r.dhSendPub| == |r.dhRecvPub| == 32
    ensures |Encode(r)| == 210
    ensures FieldAt(Encode(r), 0, r.rootKey) && FieldAt(Encode(r), 33, r.sendChainKey) && FieldAt(Encode(r), 66, r.recvChainKey)
    ensures FieldAt(Encode(r), 99, r.dhSendPriv) && FieldAt(Encode(r), 132, r.dhSendPub) && FieldAt(Encode(r), 165, r.dhRecvPub)
    ensures NumberAt(Encode(r), 198, r.nSend % TWO_TO_32) && NumberAt(Encode(r), 202, r.nRecv % TWO_TO_32)
         && NumberAt(Encode(r), 206, r.pn % TWO_TO_32)
  {
    var c := EncodeCounters(r);
    var second := PutThree(r.dhSendPriv, r.dhSendPub, r.dhRecvPub, c);
    ThreeFields(r.rootKey, r.sendChainKey, r.recvChainKey, second);
    ThreeFields(r.dhSendPriv, r.dhSendPub, r.dhRecvPub, c);
    CountersLayout(r);
    hide PutThree, EncodeCounters, Put;
    var buf := Encode(r);
    assert buf[99..] == second && buf[99..][99..] == c;
    Shifted(buf, 99, 0, r.dhSendPriv);
    Shifted(buf, 99, 33, r.dhSendPub);
    Shifted(buf, 99, 66, r.dhRecvPub);
    assert buf[198..] == c;
  }

  lemma ThreeFields(a: Bytes, b: Bytes, c: Bytes, rest: Bytes)
    requires |a| == |b| == |c| == 32
    ensures var s := PutThree(a, b, c, rest);
            FieldAt(s, 0, a) && FieldAt(s, 33, b) && FieldAt(s, 66, c) && s[99..] == rest
  {
  }

  lemma Shifted(buf: Bytes, off: nat, at: nat, v: Bytes)
    requires off <= |buf| && FieldAt(buf[off..], at, v)
    ensures FieldAt(buf, off + at, v)
  {
  }

  lemma CountersLayout(r: ByteRatchet)
    ensures var c := EncodeCounters(r);
            && |c| == 12
            && NumberAt(c, 0, r.nSend % TWO_TO_32) && NumberAt(c, 4, r.nRecv % TWO_TO_32) && NumberAt(c, 8, r.pn % TWO_TO_32)
  {
    CountersReadBack(r);
  }
}
