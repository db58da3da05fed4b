/**
 packages/kalki_crypto/lib/src/envelope.dart: the writer with its growing
 buffer, the reader with its cursor, and seal/verify/open around them.
 */
module EnvelopeIo {
  import opened Basics
  import opened Wire
  import opened EnvelopeCodec

  // ---- Writing --------------------------------------------------------------

  method WriteVarint(b: Bytes, v0: int) returns (out: Bytes)
    ensures out == b + Varint(v0)
  {
    out := b;
    var v := v0;
    while v >= 0x80
      invariant out + Varint(v) == b + Varint(v0)
      decreases v
    {
      assert Varint(v) == [v % 0x80 + 0x80] + Varint(v / 0x80);
      out := out + [v % 0x80 + 0x80];
      v := v / 0x80;
    }
    out := out + [v % 0x80];
  }

  method ToBytes(e: ByteEnvelope) returns (b: Bytes)
    ensures b == Encode(e)
  {
    b := [1];
    b := b + [if e.bootstrap.None? then 0 else 1];
    b := WritePrefix(b, PrefixOf(e));
    if e.bootstrap.Some? {
      b := WriteHeader(b, e.bootstrap.value);
    }
    hide EncodePrefix, EncodeHeader;
    b := b + e.nonce;
    b := b + e.ciphertext;
    ghost var tail := e.nonce + e.ciphertext;
    if e.bootstrap.Some? {
      HeaderThen(e.bootstrap.value, tail);
      PrefixThen(PrefixOf(e), EncodeHeader(e.bootstrap.value, tail));
    } else {
      PrefixThen(PrefixOf(e), tail);
    }
  }

  method WritePrefix(b0: Bytes, p: Prefix) returns (b: Bytes)
    ensures b == b0 + EncodePrefix(p, [])
  {
    b := b0 + p.sender;
    b := b + p.recipient;
    b := b + p.ratchetPub;
    b := WriteVarint(b, p.prevChainLen);
    b := WriteVarint(b, p.msgNumber);
  }

  method WriteHeader(b0: Bytes, h: BootstrapHeader<Bytes, Bytes>) returns (b: Bytes)
    ensures b == b0 + EncodeHeader(h, [])
  {
    b := b0 + h.identityEd25519;
    b := b + h.identityX25519;
    b := b + h.ephemeralX25519;
    b := WriteVarint(b, h.signedPrekeyId);
    b := WriteVarint(b, h.oneTimePrekeyId);
  }

  method AadBytes(s: Bytes, r: Bytes, n: int) returns (b: Bytes)
    ensures b == Aad(s, r, n)
  {
    b := s + r;
    b := WriteVarint(b, n);
  }

  // ---- Reading --------------------------------------------------------------

  function Pow2(n: nat): (p: nat)
    ensures p >= 1
  {
    if n == 0 then 1 else 2 * Pow2(n - 1)
  }

  /** Dart's `<<` on a 64-bit int; everything is shifted out from 64 places on. */
  function Shl64(g: int, shift: nat): int
  {
    if shift >= 64 then 0 else ToInt64(g * Pow2(shift))
  }

  lemma {:induction false} Pow2Of7(k: nat)
    ensures Pow2(7 * k) == Pow128(k)
  {
    if k > 0 {
      Pow2Of7(k - 1);
      assert Pow2(7 * k) == 2 * Pow2(7 * k - 1) == 4 * Pow2(7 * k - 2) == 8 * Pow2(7 * k - 3);
      assert Pow2(7 * k - 3) == 2 * Pow2(7 * k - 4) == 4 * Pow2(7 * k - 5) == 8 * Pow2(7 * k - 6);
    }
  }

  lemma {:induction false} HighPowersVanish(k: nat)
    requires k >= 10
    ensures Pow128(k) % TWO_TO_64 == 0
  {
    if k == 10 {
      assert Pow128(4) == 0x1000_0000;
      assert Pow128(7) == 0x2_0000_0000_0000;
      assert Pow128(10) == 64 * TWO_TO_64;
    } else {
      HighPowersVanish(k - 1);
      assert Pow128(k) == 0x80 * Pow128(k - 1);
    }
  }

  lemma MultipleVanishes(g: nat, p: nat)
    requires p % TWO_TO_64 == 0
    ensures ToInt64(g * p) == 0
  {
    var q := p / TWO_TO_64;
    assert g * p == (g * q) * TWO_TO_64;
  }

  /** The value of `n` written from the k-th group on. */
  function Place(n: nat, k: nat): nat { n * Pow128(k) }

  lemma PlaceOfGroups(g: nat, n: nat, k: nat)
    ensures Place(g + 0x80 * n, k) == Place(g, k) + Place(n, k + 1)
  {
    var p := Pow128(k);
    assert (g + 0x80 * n) * p == g * p + n * (0x80 * p);
  }

  lemma ShiftIsPlace(g: nat, k: nat)
    ensures Shl64(g, 7 * k) == ToInt64(Place(g, k))
  {
    Pow2Of7(k);
    if 7 * k >= 64 {
      HighPowersVanish(k);
      MultipleVanishes(g, Pow128(k));
    }
  }

  /** Shifting a group into place and adding it is addition of its place value, in 64 bits. */
  lemma AddGroup(acc: nat, k: nat, g: nat)
    ensures ToInt64(ToInt64(acc) + Shl64(g, 7 * k)) == ToInt64(acc + Place(g, k))
  {
    ShiftIsPlace(g, k);
    WrapOfSum(acc, Place(g, k));
  }

  lemma WrapOfSum(a: int, b: int)
    ensures ToInt64(ToInt64(a) + ToInt64(b)) == ToInt64(a + b)
  {
    assert (a + b - (ToInt64(a) + ToInt64(b))) % TWO_TO_64 == 0;
  }

  /** The reader's loop as a recursion: `result` collects groups that are shifted ever further left. */
  function ReadFrom(s: Bytes, shift: nat, result: int): Result<(int, Bytes)>
  {
    if s == [] then Err
    else
      var result' := ToInt64(result + Shl64(s[0] % 0x80, shift));
      if s[0] < 0x80 then Ok((result', s[1..])) else ReadFrom(s[1..], shift + 7, result')
  }

  /** Shifting groups together in 64 bits gives the low 64 bits of the number they spell. */
  lemma {:induction false} ReadFromIsGroups(s: Bytes, k: nat, acc: nat)
    ensures ReadFrom(s, 7 * k, ToInt64(acc))
         == if Groups(s).Ok? then Ok((ToInt64(acc + Place(Groups(s).value.0, k)), Groups(s).value.1)) else Err
  {
    hide ToInt64, Shl64, Place;
    if s != [] {
      var g := s[0] % 0x80;
      AddGroup(acc, k, g);
      if s[0] >= 0x80 {
        ReadFromIsGroups(s[1..], k + 1, acc + Place(g, k));
        if Groups(s[1..]).Ok? {
          PlaceOfGroups(g, Groups(s[1..]).value.0, k);
        }
      }
    }
  }

  lemma ReadFromStart(s: Bytes)
    ensures ReadFrom(s, 0, 0) == ReadVarint(s)
  {
    hide Groups;
    ReadFromIsGroups(s, 0, 0);
    if Groups(s).Ok? {
      assert Place(Groups(s).value.0, 0) == Groups(s).value.0;
    }
  }

  /**
   The cursor version of the varint reader. Successive groups share no bit, so
   the source's `|=` is modelled as 64-bit addition. Reading past the end is an
   error, as the source's index throws.
   */
  method ReadVarintAt(buf: Bytes, off0: nat) returns (r: Result<(int, nat)>)
    requires off0 <= |buf|
    ensures r.Ok? <==> ReadVarint(buf[off0..]).Ok?
    ensures r.Ok? ==> r.value.1 <= |buf| && ReadVarint(buf[off0..]).value == (r.value.0, buf[r.value.1..])
  {
    hide ToInt64, Shl64, ReadVarint;
    ReadFromStart(buf[off0..]);
    var off, shift, result := off0, 0, 0;
    while off < |buf|
      invariant off0 <= off <= |buf| && shift >= 0
      invariant ReadFrom(buf[off..], shift, result) == ReadFrom(buf[off0..], 0, 0)
    {
      var b := buf[off];
      assert buf[off..][1..] == buf[off + 1..];
      off := off + 1;
      result := ToInt64(result + Shl64(b % 0x80, shift));
      if b < 0x80 {
        return Ok((result, off));
      }
      shift := shift + 7;
    }
    return Err;
  }

  method FromBytes(raw: Bytes) returns (r: Result<ByteEnvelope>)
    ensures r == Parse(raw)
  {
    hide ParsePrefix, ParseHeader;
    if |raw| < 2 || raw[0] != 1 || (raw[1] != 0 && raw[1] != 1) {
      return Err;
    }
    var off := 2;
    var p, o := PrefixAt(raw, off);
    if p.Err? {
      return Err;
    }
    off := o;
    var boot: Option<BootstrapHeader<Bytes, Bytes>> := None;
    if raw[1] == 1 {
      var h, o' := HeaderAt(raw, off);
      if h.Err? {
        return Err;
      }
      boot := Some(h.value);
      off := o';
    }
    if off + 12 > |raw| {
      return Err;
    }
    var n := raw[off..off + 12];
    assert n == raw[off..][..12];
    off := off + 12;
    var ct := raw[off..];
    assert ct == raw[off - 12..][12..];
    return Ok(Assemble(p.value, boot, n, ct));
  }

  method PrefixAt(raw: Bytes, off0: nat) returns (p: Result<Prefix>, off: nat)
    requires off0 <= |raw|
    ensures p.Ok? <==> ParsePrefix(raw[off0..]).Ok?
    ensures p.Ok? ==> off <= |raw| && ParsePrefix(raw[off0..]).value == (p.value, raw[off..])
  {
    hide ReadVarint;
    off := off0;
    if off + 64 > |raw| {
      return Err, off;
    }
    assert raw[off..][16..] == raw[off + 16..];
    assert raw[off + 16..][16..] == raw[off + 32..];
    assert raw[off + 32..][32..] == raw[off + 64..];
    var s := raw[off..off + 16];
    off := off + 16;
    var r := raw[off..off + 16];
    off := off + 16;
    var rp := raw[off..off + 32];
    off := off + 32;
    assert s == raw[off0..][..16] && r == raw[off0 + 16..][..16] && rp == raw[off0 + 32..][..32];
    var prev := ReadVarintAt(raw, off);
    if prev.Err? {
      return Err, off;
    }
    off := prev.value.1;
    var msg := ReadVarintAt(raw, off);
    if msg.Err? {
      return Err, off;
    }
    off := msg.value.1;
    return Ok(Prefix(s, r, rp, prev.value.0, msg.value.0)), off;
  }

  method HeaderAt(raw: Bytes, off0: nat) returns (h: Result<BootstrapHeader<Bytes, Bytes>>, off: nat)
    requires off0 <= |raw|
    ensures h.Ok? <==> ParseHeader(raw[off0..]).Ok?
    ensures h.Ok? ==> off <= |raw| && ParseHeader(raw[off0..]).value == (h.value, raw[off..])
  {
    hide ReadVarint;
    off := off0;
    if off + 96 > |raw| {
      return Err, off;
    }
    assert raw[off..][32..] == raw[off + 32..];
    assert raw[off + 32..][32..] == raw[off + 64..];
    assert raw[off + 64..][32..] == raw[off + 96..];
    var idEd := raw[off..off + 32];
    off := off + 32;
    var idX := raw[off..off + 32];
    off := off + 32;
    var eph := raw[off..off + 32];
    off := off + 32;
    assert idEd == raw[off0..][..32] && idX == raw[off0 + 32..][..32] && eph == raw[off0 + 64..][..32];
    var spk := ReadVarintAt(raw, off);
    if spk.Err? {
      return Err, off;
    }
    off := spk.value.1;
    var opk := ReadVarintAt(raw, off);
    if opk.Err? {
      return Err, off;
    }
    off := opk.value.1;
    return Ok(BootstrapHeader(idEd, idX, eph, spk.value.0, opk.value.0)), off;
  }

  // ---- Seal, verify, open -----------------------------------------------------

  type Encryptor = (Bytes, Bytes, Bytes, Bytes) -> (Bytes, Bytes)
  type Decryptor = (Bytes, Bytes, Bytes, Bytes, Bytes) -> Option<Bytes>

  /** An authenticated cipher with a 16-byte tag that opens what it sealed. */
  ghost predicate Cipher(enc: Encryptor, dec: Decryptor)
  {
    forall k: Bytes, n: Bytes, a: Bytes, p: Bytes {:trigger enc(k, n, a, p)} ::
      |enc(k, n, a, p).1| == 16 && dec(k, n, a, enc(k, n, a, p).0, enc(k, n, a, p).1) == Some(p)
  }

  ghost predicate Signer(sign: Bytes -> Bytes, verify: (Bytes, Bytes) -> bool)
  {
    forall m: Bytes :: verify(m, sign(m))
  }

  /** The unsealed envelope `draft` carries everything but the ciphertext. */
  function Seal(draft: ByteEnvelope, key: Bytes, plaintext: Bytes, enc: Encryptor): ByteEnvelope
  {
    var (ct, mac) := enc(key, draft.nonce, Aad(draft.senderDevId, draft.recipientDevId, draft.msgNumber), plaintext);
    draft.(ciphertext := ct + mac)
  }

  function Open(e: ByteEnvelope, key: Bytes, dec: Decryptor): Option<Bytes>
  {
    var ctLen := |e.ciphertext| - 16;
    if ctLen < 0 then None
    else dec(key, e.nonce, Aad(e.senderDevId, e.recipientDevId, e.msgNumber), e.ciphertext[..ctLen], e.ciphertext[ctLen..])
  }

  /**
   seal, toBytes, fromBytes, verify, open: the receiver parses back the very
   envelope that was signed, so verification over its own re-serialisation
   succeeds and the plaintext comes out.
   */
  lemma SealedMessageArrives(draft: ByteEnvelope, key: Bytes, plaintext: Bytes,
                             enc: Encryptor, dec: Decryptor,
                             sign: Bytes -> Bytes, verify: (Bytes, Bytes) -> bool)
    requires Sized(draft) && NonNegative(draft)
    requires Cipher(enc, dec) && Signer(sign, verify)
    ensures var wire := Encode(Seal(draft, key, plaintext, enc));
            var signature := sign(wire);
            && Parse(wire).Ok?
            && verify(Encode(Parse(wire).value), signature)
            && Open(Parse(wire).value, key, dec) == Some(plaintext)
  {
    var e := Seal(draft, key, plaintext, enc);
    RoundTripIff(e);
    var (ct, mac) := enc(key, draft.nonce, Aad(draft.senderDevId, draft.recipientDevId, draft.msgNumber), plaintext);
    SplitAppend(ct, mac);
  }

  /** What was sealed opens under no other key, nonce or associated data. */
  ghost predicate Authentic(enc: Encryptor, dec: Decryptor)
  {
    forall k: Bytes, n: Bytes, a: Bytes, p: Bytes, k': Bytes, n': Bytes, a': Bytes
      {:trigger dec(k', n', a', enc(k, n, a, p).0, enc(k, n, a, p).1)} ::
      dec(k', n', a', enc(k, n, a, p).0, enc(k, n, a, p).1).Some? ==> (k', n', a') == (k, n, a)
  }

  /** A sealed envelope opens exactly for the sender, recipient, number, nonce and key it was sealed with. */
  lemma OpensIffUntouched(draft: ByteEnvelope, key: Bytes, plaintext: Bytes, enc: Encryptor, dec: Decryptor,
                          seen: ByteEnvelope, key': Bytes)
    requires SizedPrefix(PrefixOf(draft)) && SizedPrefix(PrefixOf(seen)) && draft.msgNumber >= 0 && seen.msgNumber >= 0
    requires Cipher(enc, dec) && Authentic(enc, dec)
    requires seen.ciphertext == Seal(draft, key, plaintext, enc).ciphertext
    ensures Open(seen, key', dec).Some? <==>
              && key' == key && seen.nonce == draft.nonce
              && seen.senderDevId == draft.senderDevId && seen.recipientDevId == draft.recipientDevId
              && seen.msgNumber == draft.msgNumber
  {
    var a := Aad(draft.senderDevId, draft.recipientDevId, draft.msgNumber);
    var a' := Aad(seen.senderDevId, seen.recipientDevId, seen.msgNumber);
    var (ct, mac) := enc(key, draft.nonce, a, plaintext);
    SplitAppend(ct, mac);
    if a == a' {
      AadInjective(draft.senderDevId, draft.recipientDevId, draft.msgNumber,
                   seen.senderDevId, seen.recipientDevId, seen.msgNumber);
    }
    hide Aad;
    assert Open(seen, key', dec) == dec(key', seen.nonce, a', ct, mac);
  }
}
