/** packages/kalki_crypto/lib/src/envelope.dart: the wire form of an envelope. */
module EnvelopeCodec {
  import opened Basics
  import opened Wire

  type ByteEnvelope = Envelope<Bytes, Bytes, Bytes, Bytes>

  datatype Prefix = Prefix(sender: Bytes, recipient: Bytes, ratchetPub: Bytes, prevChainLen: int, msgNumber: int)

  function PrefixOf(e: ByteEnvelope): Prefix
  {
    Prefix(e.senderDevId, e.recipientDevId, e.ratchetPub, e.prevChainLen, e.msgNumber)
  }

  // ---- Varints --------------------------------------------------------------

  /** A Dart int: the 64-bit two's complement reading of `n`. */
  function ToInt64(n: int): (v: int)
    ensures -TWO_TO_63 <= v < TWO_TO_63
    ensures (v - n) % TWO_TO_64 == 0
  {
    var m := n % TWO_TO_64;
    if m < TWO_TO_63 then m else m - TWO_TO_64
  }

  /** Base 128, least significant group first; a negative number is cut to its low seven bits. */
  function Varint(v: int): (s: Bytes)
    ensures |s| >= 1
    decreases if v < 0 then 0 else v
  {
    if v >= 0x80 then [v % 0x80 + 0x80] + Varint(v / 0x80) else [v % 0x80]
  }

  /** The groups at the head of `s` as one unbounded number, and what follows them. */
  function Groups(s: Bytes): (r: Result<(nat, Bytes)>)
    ensures r.Ok? ==> |r.value.1| < |s| && r.value.1 == s[|s| - |r.value.1|..]
  {
    if s == [] then Err
    else if s[0] < 0x80 then Ok((s[0], s[1..]))
    else
      var (n, rest) :- Groups(s[1..]);
      Ok((s[0] % 0x80 + 0x80 * n, rest))
  }

  /** What the reader returns: the groups, shifted together in 64 bits. */
  function ReadVarint(s: Bytes): (r: Result<(int, Bytes)>)
    ensures r.Ok? ==> |r.value.1| < |s| && r.value.1 == s[|s| - |r.value.1|..]
  {
    var (n, rest) :- Groups(s);
    Ok((ToInt64(n), rest))
  }

  function Clamp(v: int): int { if v < 0 then v % 0x80 else v }

  lemma {:induction false} GroupsOfVarint(v: int, rest: Bytes)
    ensures Groups(Varint(v) + rest) == Ok((Clamp(v), rest))
    decreases if v < 0 then 0 else v
  {
    var s := Varint(v) + rest;
    if v >= 0x80 {
      assert s[1..] == Varint(v / 0x80) + rest;
      GroupsOfVarint(v / 0x80, rest);
    } else {
      assert s[1..] == rest;
    }
  }

  lemma {:induction false} VarintGrows(v: nat, w: nat)
    requires v <= w
    ensures |Varint(v)| <= |Varint(w)|
  {
    if v >= 0x80 {
      VarintGrows(v / 0x80, w / 0x80);
    }
  }

  /** Writing a value that was read is never longer than what was read. */
  lemma {:induction false} GroupsAreNotShorter(s: Bytes)
    requires Groups(s).Ok?
    ensures |Varint(Groups(s).value.0)| <= |s| - |Groups(s).value.1|
  {
    if s[0] >= 0x80 {
      var n := Groups(s[1..]).value.0;
      GroupsAreNotShorter(s[1..]);
      assert Groups(s).value.0 / 0x80 == n;
    }
  }

  function Pow128(k: nat): (p: nat)
    ensures p >= 1
  {
    if k == 0 then 1 else 0x80 * Pow128(k - 1)
  }

  lemma {:induction false} GroupsBelowPower(s: Bytes)
    requires Groups(s).Ok?
    ensures Groups(s).value.0 < Pow128(|s| - |Groups(s).value.1|)
  {
    if s[0] >= 0x80 {
      GroupsBelowPower(s[1..]);
    } else {
      assert Pow128(1) == 0x80 * Pow128(0);
    }
  }

  lemma PowersUpToNine(k: nat)
    requires k <= 9
    ensures Pow128(k) <= TWO_TO_63
  {
    assert Pow128(3) == 0x20_0000;
    assert Pow128(6) == 0x400_0000_0000;
    assert Pow128(9) == TWO_TO_63;
    if k < 9 {
      PowersMonotone(k, 9);
    }
  }

  lemma {:induction false} PowersMonotone(i: nat, j: nat)
    requires i <= j
    ensures Pow128(i) <= Pow128(j)
  {
    if i < j {
      PowersMonotone(i, j - 1);
    }
  }

  /** A varint of at most nine bytes is read as the number it spells, so never as a negative one. */
  lemma NineBytesAreExact(s: Bytes)
    requires Groups(s).Ok? && |s| - |Groups(s).value.1| <= 9
    ensures ReadVarint(s).value.0 == Groups(s).value.0
  {
    GroupsBelowPower(s);
    PowersUpToNine(|s| - |Groups(s).value.1|);
  }

  lemma ReadIsNotShorter(s: Bytes)
    requires ReadVarint(s).Ok? && ReadVarint(s).value.0 >= 0
    ensures |Varint(ReadVarint(s).value.0)| <= |s| - |ReadVarint(s).value.1|
  {
    var n := Groups(s).value.0;
    GroupsAreNotShorter(s);
    assert ToInt64(n) == n % TWO_TO_64 <= n;
    VarintGrows(ToInt64(n), n);
  }

  // ---- Encoding -------------------------------------------------------------

  function EncodeHeader(h: BootstrapHeader<Bytes, Bytes>, rest: Bytes): Bytes
  {
    h.identityEd25519 + (h.identityX25519 + (h.ephemeralX25519
      + (Varint(h.signedPrekeyId) + (Varint(h.oneTimePrekeyId) + rest))))
  }

  /** The part both layouts share, in front of `rest`. */
  function EncodePrefix(p: Prefix, rest: Bytes): Bytes
  {
    p.sender + (p.recipient + (p.ratchetPub + (Varint(p.prevChainLen) + (Varint(p.msgNumber) + rest))))
  }

  function Encode(e: ByteEnvelope): Bytes
  {
    var tail := e.nonce + e.ciphertext;
    var body := if e.bootstrap.None? then tail else EncodeHeader(e.bootstrap.value, tail);
    [1, if e.bootstrap.None? then 0 else 1] + EncodePrefix(PrefixOf(e), body)
  }

  /** The data a signature or a GCM tag binds besides the ciphertext. */
  function Aad(sender: Bytes, recipient: Bytes, msgNumber: int): Bytes
  {
    sender + (recipient + Varint(msgNumber))
  }

  function ParseHeader(raw: Bytes): Result<(BootstrapHeader<Bytes, Bytes>, Bytes)>
  {
    var (idEd, r1) :- Split(raw, 32);
    var (idX, r2) :- Split(r1, 32);
    var (eph, r3) :- Split(r2, 32);
    var (spkId, r4) :- ReadVarint(r3);
    var (opkId, r5) :- ReadVarint(r4);
    Ok((BootstrapHeader(idEd, idX, eph, spkId, opkId), r5))
  }

  /** An optional header, present when the type byte says so. */
  function ParseOptional(kind: byte, raw: Bytes): Result<(Option<BootstrapHeader<Bytes, Bytes>>, Bytes)>
  {
    if kind == 1 then
      var (h, rest) :- ParseHeader(raw);
      Ok((Some(h), rest))
    else Ok((None, raw))
  }

  function ParsePrefix(raw: Bytes): Result<(Prefix, Bytes)>
  {
    var (s, r1) :- Split(raw, 16);
    var (r, r2) :- Split(r1, 16);
    var (rp, r3) :- Split(r2, 32);
    var (prev, r4) :- ReadVarint(r3);
    var (msg, r5) :- ReadVarint(r4);
    Ok((Prefix(s, r, rp, prev, msg), r5))
  }

  function Assemble(p: Prefix, boot: Option<BootstrapHeader<Bytes, Bytes>>, n: Bytes, ct: Bytes): ByteEnvelope
  {
    Envelope(p.sender, p.recipient, p.ratchetPub, p.prevChainLen, p.msgNumber, boot, n, ct)
  }

  function Parse(raw: Bytes): Result<ByteEnvelope>
  {
    if |raw| < 2 || raw[0] != 1 || (raw[1] != 0 && raw[1] != 1) then Err
    else
      var (p, r1) :- ParsePrefix(raw[2..]);
      var (boot, r2) :- ParseOptional(raw[1], r1);
      var (n, ct) :- Split(r2, 12);
      Ok(Assemble(p, boot, n, ct))
  }

  // ---- Round trips ----------------------------------------------------------

  predicate IsInt64(v: int) { -TWO_TO_63 <= v < TWO_TO_63 }

  /** Field sizes as in the layout; counters and ids are Dart ints. */
  predicate Sized(e: ByteEnvelope)
  {
    && SizedPrefix(PrefixOf(e)) && |e.nonce| == 12
    && (e.bootstrap.Some? ==> SizedHeader(e.bootstrap.value))
  }

  predicate SizedPrefix(p: Prefix)
  {
    && |p.sender| == 16 && |p.recipient| == 16 && |p.ratchetPub| == 32
    && IsInt64(p.prevChainLen) && IsInt64(p.msgNumber)
  }

  predicate SizedHeader(h: BootstrapHeader<Bytes, Bytes>)
  {
    && |h.identityEd25519| == 32 && |h.identityX25519| == 32 && |h.ephemeralX25519| == 32
    && IsInt64(h.signedPrekeyId) && IsInt64(h.oneTimePrekeyId)
  }

  predicate NonNegative(e: ByteEnvelope)
  {
    && e.prevChainLen >= 0 && e.msgNumber >= 0
    && (e.bootstrap.Some? ==> e.bootstrap.value.signedPrekeyId >= 0 && e.bootstrap.value.oneTimePrekeyId >= 0)
  }

  function ClampHeader(h: BootstrapHeader<Bytes, Bytes>): BootstrapHeader<Bytes, Bytes>
  {
    h.(signedPrekeyId := Clamp(h.signedPrekeyId), oneTimePrekeyId := Clamp(h.oneTimePrekeyId))
  }

  function ClampPrefix(p: Prefix): Prefix
  {
    p.(prevChainLen := Clamp(p.prevChainLen), msgNumber := Clamp(p.msgNumber))
  }

  function ClampAll(e: ByteEnvelope): ByteEnvelope
  {
    e.(prevChainLen := Clamp(e.prevChainLen), msgNumber := Clamp(e.msgNumber),
       bootstrap := if e.bootstrap.None? then None else Some(ClampHeader(e.bootstrap.value)))
  }

  lemma ReadBack(v: int, rest: Bytes)
    requires IsInt64(v)
    ensures ReadVarint(Varint(v) + rest) == Ok((Clamp(v), rest))
  {
    GroupsOfVarint(v, rest);
    assert ToInt64(Clamp(v)) == Clamp(v);
  }

  lemma HeaderReadBack(h: BootstrapHeader<Bytes, Bytes>, rest: Bytes)
    requires SizedHeader(h)
    ensures ParseHeader(EncodeHeader(h, rest)) == Ok((ClampHeader(h), rest))
  {
    var r4 := Varint(h.oneTimePrekeyId) + rest;
    var r3 := Varint(h.signedPrekeyId) + r4;
    var r2 := h.ephemeralX25519 + r3;
    var r1 := h.identityX25519 + r2;
    SplitAppend(h.identityEd25519, r1);
    SplitAppend(h.identityX25519, r2);
    SplitAppend(h.ephemeralX25519, r3);
    ReadBack(h.signedPrekeyId, r4);
    ReadBack(h.oneTimePrekeyId, rest);
  }

  lemma PrefixReadBack(p: Prefix, rest: Bytes)
    requires SizedPrefix(p)
    ensures ParsePrefix(EncodePrefix(p, rest)) == Ok((ClampPrefix(p), rest))
  {
    var r4 := Varint(p.msgNumber) + rest;
    var r3 := Varint(p.prevChainLen) + r4;
    var r2 := p.ratchetPub + r3;
    SplitAppend(p.sender, p.recipient + r2);
    SplitAppend(p.recipient, r2);
    SplitAppend(p.ratchetPub, r3);
    ReadBack(p.prevChainLen, r4);
    ReadBack(p.msgNumber, rest);
  }

  /** Parsing what was encoded returns the envelope, with a negative number cut to seven bits. */
  lemma ParseOfEncode(e: ByteEnvelope)
    requires Sized(e)
    ensures Parse(Encode(e)) == Ok(ClampAll(e))
  {
    var tail := e.nonce + e.ciphertext;
    var body := if e.bootstrap.None? then tail else EncodeHeader(e.bootstrap.value, tail);
    assert Encode(e)[2..] == EncodePrefix(PrefixOf(e), body);
    PrefixReadBack(PrefixOf(e), body);
    if e.bootstrap.Some? {
      HeaderReadBack(e.bootstrap.value, tail);
    }
    SplitAppend(e.nonce, e.ciphertext);
  }

  lemma ClampIff(e: ByteEnvelope)
    ensures ClampAll(e) == e <==> NonNegative(e)
  {
  }

  /** An envelope survives the wire if and only if none of its numbers is negative. */
  lemma RoundTripIff(e: ByteEnvelope)
    requires Sized(e)
    ensures Parse(Encode(e)) == Ok(e) <==> NonNegative(e)
  {
    ParseOfEncode(e);
    ClampIff(e);
  }

  lemma EncodeInjective(e: ByteEnvelope, f: ByteEnvelope)
    requires Sized(e) && NonNegative(e) && Sized(f) && NonNegative(f)
    requires Encode(e) == Encode(f)
    ensures e == f
  {
    RoundTripIff(e);
    RoundTripIff(f);
  }

  lemma AadInjective(s: Bytes, r: Bytes, n: nat, s': Bytes, r': Bytes, n': nat)
    requires |s| == |s'| == 16 && |r| == |r'| == 16
    requires Aad(s, r, n) == Aad(s', r', n')
    ensures s == s' && r == r' && n == n'
  {
    SplitAppend(s, r + Varint(n));
    SplitAppend(s', r' + Varint(n'));
    SplitAppend(r, Varint(n));
    SplitAppend(r', Varint(n'));
    GroupsOfVarint(n, []);
    GroupsOfVarint(n', []);
    assert Varint(n) + [] == Varint(n) && Varint(n') + [] == Varint(n');
  }

  // ---- Normalisation of arbitrary input ---------------------------------------

  /** The counters of a prefix take at most nine bytes each. */
  predicate ShortPrefix(raw: Bytes)
    requires ParsePrefix(raw).Ok?
  {
    var r3 := raw[16..][16..][32..];
    var r4 := ReadVarint(r3).value.1;
    var r5 := ReadVarint(r4).value.1;
    |r3| - |r4| <= 9 && |r4| - |r5| <= 9
  }

  predicate ShortHeader(raw: Bytes)
    requires ParseHeader(raw).Ok?
  {
    var r3 := raw[32..][32..][32..];
    var r4 := ReadVarint(r3).value.1;
    var r5 := ReadVarint(r4).value.1;
    |r3| - |r4| <= 9 && |r4| - |r5| <= 9
  }

  /** Two varints in a row, read at once: what either reading lemma says of both. */
  lemma TwoVarints(s: Bytes)
    requires ReadVarint(s).Ok? && ReadVarint(ReadVarint(s).value.1).Ok?
    ensures var (v, s1) := ReadVarint(s).value;
            var (w, s2) := ReadVarint(s1).value;
            && (v >= 0 && w >= 0 ==> |Varint(v)| + |Varint(w)| <= |s| - |s2|)
            && (|s| - |s1| <= 9 && |s1| - |s2| <= 9 ==> v >= 0 && w >= 0)
  {
    var (v, s1) := ReadVarint(s).value;
    var (w, s2) := ReadVarint(s1).value;
    if v >= 0 { ReadIsNotShorter(s); }
    if w >= 0 { ReadIsNotShorter(s1); }
    if |s| - |s1| <= 9 { NineBytesAreExact(s); }
    if |s1| - |s2| <= 9 { NineBytesAreExact(s1); }
  }

  lemma PrefixShape(raw: Bytes)
    requires ParsePrefix(raw).Ok?
    ensures var (p, rest) := ParsePrefix(raw).value;
            && SizedPrefix(p)
            && (ShortPrefix(raw) ==> p.prevChainLen >= 0 && p.msgNumber >= 0)
            && (p.prevChainLen >= 0 && p.msgNumber >= 0 ==> |EncodePrefix(p, [])| + |rest| <= |raw|)
  {
    TwoVarints(raw[16..][16..][32..]);
  }

  lemma HeaderShape(raw: Bytes)
    requires ParseHeader(raw).Ok?
    ensures var (h, rest) := ParseHeader(raw).value;
            && SizedHeader(h)
            && (ShortHeader(raw) ==> h.signedPrekeyId >= 0 && h.oneTimePrekeyId >= 0)
            && (h.signedPrekeyId >= 0 && h.oneTimePrekeyId >= 0 ==> |EncodeHeader(h, [])| + |rest| <= |raw|)
  {
    TwoVarints(raw[32..][32..][32..]);
  }

  lemma EncodedLength(e: ByteEnvelope)
    ensures |Encode(e)| == 2 + |EncodePrefix(PrefixOf(e), [])| + |e.nonce| + |e.ciphertext|
                         + (if e.bootstrap.None? then 0 else |EncodeHeader(e.bootstrap.value, [])|)
  {
    var tail := e.nonce + e.ciphertext;
    if e.bootstrap.Some? {
      assert |EncodeHeader(e.bootstrap.value, tail)| == |EncodeHeader(e.bootstrap.value, [])| + |tail|;
    }
  }

  /** Each varint of the input is at most nine bytes long. */
  predicate ShortVarints(raw: Bytes)
    requires Parse(raw).Ok?
  {
    && ShortPrefix(raw[2..])
    && (raw[1] == 1 ==> ShortHeader(ParsePrefix(raw[2..]).value.1))
  }

  /** Whatever parses has the layout's sizes, and re-encodes no longer than it came. */
  lemma ParsedShape(raw: Bytes)
    requires Parse(raw).Ok?
    ensures var e := Parse(raw).value;
            && Sized(e)
            && (ShortVarints(raw) ==> NonNegative(e))
            && (NonNegative(e) ==> |Encode(e)| <= |raw|)
  {
    var r1 := ParsePrefix(raw[2..]).value.1;
    PrefixShape(raw[2..]);
    if raw[1] == 1 {
      HeaderShape(r1);
    }
    EncodedLength(Parse(raw).value);
  }

  function Normalise(raw: Bytes): Bytes
    requires Parse(raw).Ok?
  {
    Encode(Parse(raw).value)
  }

  /**
   On accepted input, re-encoding keeps the envelope if and only if no number
   was read as negative, and then it is an idempotent normaliser that never
   lengthens its input.
   */
  lemma NormaliseIff(raw: Bytes)
    requires Parse(raw).Ok?
    ensures Parse(Normalise(raw)).Ok?
    ensures Parse(Normalise(raw)) == Parse(raw) <==> NonNegative(Parse(raw).value)
    ensures NonNegative(Parse(raw).value) ==>
              |Normalise(raw)| <= |raw| && Normalise(Normalise(raw)) == Normalise(raw)
  {
    ParsedShape(raw);
    ParseOfEncode(Parse(raw).value);
    RoundTripIff(Parse(raw).value);
  }

  /** Varints of at most nine bytes are never read as negative, so such input always normalises. */
  lemma NineByteVarintsNormalise(raw: Bytes)
    requires Parse(raw).Ok? && ShortVarints(raw)
    ensures Parse(Normalise(raw)) == Parse(raw)
    ensures |Normalise(raw)| <= |raw|
    ensures Normalise(Normalise(raw)) == Normalise(raw)
  {
    ParsedShape(raw);
    NormaliseIff(raw);
  }

  // ---- Input that does not normalise --------------------------------------------

  /** `k` empty groups and a one: 128 to the power `k`. */
  function LongVarint(k: nat): Bytes
  {
    if k == 0 then [0x01] else [0x80] + LongVarint(k - 1)
  }

  lemma {:induction false} LongVarintIsPower(k: nat, rest: Bytes)
    ensures Groups(LongVarint(k) + rest) == Ok((Pow128(k), rest))
  {
    if k == 0 {
      assert ([0x01] + rest)[1..] == rest;
    } else {
      hide Groups;
      var tail := LongVarint(k - 1);
      LongVarintIsPower(k - 1, rest);
      EmptyGroup(tail + rest);
      assert ([0x80] + tail) + rest == [0x80] + (tail + rest);
    }
  }

  lemma EmptyGroup(s: Bytes)
    requires Groups(s).Ok?
    ensures Groups([0x80] + s) == Ok((0x80 * Groups(s).value.0, Groups(s).value.1))
  {
    assert ([0x80] + s)[1..] == s;
  }

  /** Nine empty groups and a one, ten bytes, are read as the least 64-bit integer. */
  lemma TenBytesCanBeNegative(rest: Bytes)
    ensures ReadVarint(LongVarint(9) + rest) == Ok((-TWO_TO_63, rest))
  {
    LongVarintIsPower(9, rest);
    assert Pow128(3) == 0x20_0000;
    assert Pow128(6) == 0x400_0000_0000;
    assert Pow128(9) == TWO_TO_63;
  }

  /** A type-0 envelope whose prevChainLen is spelled as `spelled`. */
  function Spelling(p: Prefix, spelled: Bytes, n: Bytes, ct: Bytes): Bytes
  {
    [1, 0] + (p.sender + (p.recipient + (p.ratchetPub + (spelled + (Varint(p.msgNumber) + (n + ct))))))
  }

  lemma SpellingIsRead(p: Prefix, spelled: Bytes, v: int, n: Bytes, ct: Bytes)
    requires SizedPrefix(p) && p.msgNumber >= 0 && |n| == 12
    requires ReadVarint(spelled + (Varint(p.msgNumber) + (n + ct))) == Ok((v, Varint(p.msgNumber) + (n + ct)))
    ensures Parse(Spelling(p, spelled, n, ct)) == Ok(Assemble(p.(prevChainLen := v), None, n, ct))
  {
    hide ReadVarint;
    var r3 := spelled + (Varint(p.msgNumber) + (n + ct));
    var r2 := p.ratchetPub + r3;
    SplitAppend(p.sender, p.recipient + r2);
    SplitAppend(p.recipient, r2);
    SplitAppend(p.ratchetPub, r3);
    ReadBack(p.msgNumber, n + ct);
    SplitAppend(n, ct);
    assert Spelling(p, spelled, n, ct)[2..] == p.sender + (p.recipient + r2);
  }

  /** An envelope whose prevChainLen is spelled in those ten bytes is accepted, but re-encoding changes it to 0. */
  lemma NegativeCounterIsLost(p: Prefix, n: Bytes, ct: Bytes)
    requires SizedPrefix(p) && p.msgNumber >= 0 && |n| == 12
    ensures var raw := Spelling(p, LongVarint(9), n, ct);
            && Parse(raw) == Ok(Assemble(p.(prevChainLen := -TWO_TO_63), None, n, ct))
            && Parse(Normalise(raw)) == Ok(Assemble(p.(prevChainLen := 0), None, n, ct))
  {
    hide LongVarint, Spelling, Parse, Encode;
    TenBytesCanBeNegative(Varint(p.msgNumber) + (n + ct));
    SpellingIsRead(p, LongVarint(9), -TWO_TO_63, n, ct);
    ParseOfEncode(Assemble(p.(prevChainLen := -TWO_TO_63), None, n, ct));
  }

  // ---- The layout, field by field ------------------------------------------------

  /** Byte k of a varint is the k-th group of seven bits, with the top bit set on all bytes but the last. */
  lemma {:induction false} VarintAt(v: nat, k: nat)
    requires k < |Varint(v)|
    ensures Varint(v)[k] == v / Pow128(k) % 128 + (if k < |Varint(v)| - 1 then 128 else 0)
  {
    if v >= 0x80 && k > 0 {
      assert Varint(v) == [v % 0x80 + 0x80] + Varint(v / 0x80);
      VarintAt(v / 0x80, k - 1);
      DivDiv(v, Pow128(k - 1));
    }
  }

  /** The writer's loop stops at once at a negative number, and writes its low seven bits. */
  lemma NegativeVarint(v: int)
    requires v < 0
    ensures Varint(v) == [v % 128]
  {
  }

  /** It is as short as it can be. */
  lemma {:induction false} VarintIsShort(v: nat)
    ensures v < Pow128(|Varint(v)|) && (|Varint(v)| > 1 ==> v >= Pow128(|Varint(v)| - 1))
  {
    var n := |Varint(v)|;
    assert Pow128(1) == 0x80 * Pow128(0);
    if v >= 0x80 {
      VarintIsShort(v / 0x80);
      var p := Pow128(n - 1);
      assert n - 1 == |Varint(v / 0x80)| && Pow128(n) == 0x80 * p;
      assert n > 2 ==> p == 0x80 * Pow128(n - 2);
    }
  }

  lemma DivDiv(v: nat, p: nat)
    requires p >= 1
    ensures v / 0x80 / p == v / (0x80 * p)
  {
    var q := v / (0x80 * p);
    var r := v - q * (0x80 * p);
    assert q * (0x80 * p) == 0x80 * (q * p);
    assert v / 0x80 == q * p + r / 0x80 by {
      assert v == 0x80 * (q * p) + r;
    }
    assert r / 0x80 < p;
    assert (q * p + r / 0x80) / p == q by {
      DivUnique(q * p + r / 0x80, p, q, r / 0x80);
    }
  }

  lemma DivUnique(v: nat, p: nat, q: nat, r: nat)
    requires p >= 1 && v == q * p + r && r < p
    ensures v / p == q
  {
    var d := v / p;
    Scales(d + 1, q, p);
    Scales(q + 1, d, p);
  }

  lemma Scales(a: nat, b: nat, p: nat)
    ensures a <= b ==> a * p <= b * p
  {
  }

  /** What follows the prefix, with the header or without. */
  predicate BodyLayout(e: ByteEnvelope, body: Bytes)
  {
    match e.bootstrap
    case None => body == e.nonce + e.ciphertext
    case Some(h) =>
      && |body| >= 96 && body[..32] == h.identityEd25519
      && body[32..64] == h.identityX25519 && body[64..96] == h.ephemeralX25519
      && body[96..] == Varint(h.signedPrekeyId) + Varint(h.oneTimePrekeyId) + (e.nonce + e.ciphertext)
  }

  /** Where each field of an envelope is, counted from the first byte. */
  lemma Layout(e: ByteEnvelope)
    requires Sized(e)
    ensures var raw, n := Encode(e), 66 + |Varint(e.prevChainLen)| + |Varint(e.msgNumber)|;
            && |raw| >= n && raw[0] == 1 && raw[1] == (if e.bootstrap.Some? then 1 else 0)
            && raw[2..18] == e.senderDevId && raw[18..34] == e.recipientDevId && raw[34..66] == e.ratchetPub
            && raw[66..n] == Varint(e.prevChainLen) + Varint(e.msgNumber)
            && BodyLayout(e, raw[n..])
  {
    hide EncodePrefix, EncodeHeader, Varint;
    var tail := e.nonce + e.ciphertext;
    var body := if e.bootstrap.None? then tail else EncodeHeader(e.bootstrap.value, tail);
    var start: Bytes := [1, if e.bootstrap.None? then 0 else 1];
    PrefixLayout(PrefixOf(e), start, body);
    assert BodyLayout(e, body) by {
      if e.bootstrap.Some? {
        HeaderLayout(e.bootstrap.value, tail);
      }
    }
    hide BodyLayout;
    assert Encode(e) == start + EncodePrefix(PrefixOf(e), body);
  }

  lemma PrefixLayout(p: Prefix, start: Bytes, body: Bytes)
    requires SizedPrefix(p) && |start| == 2
    ensures var raw, n := start + EncodePrefix(p, body), 66 + |Varint(p.prevChainLen)| + |Varint(p.msgNumber)|;
            && |raw| >= n && raw[0] == start[0] && raw[1] == start[1]
            && raw[2..18] == p.sender && raw[18..34] == p.recipient && raw[34..66] == p.ratchetPub
            && raw[66..n] == Varint(p.prevChainLen) + Varint(p.msgNumber) && raw[n..] == body
  {
  }

  lemma HeaderLayout(h: BootstrapHeader<Bytes, Bytes>, tail: Bytes)
    requires SizedHeader(h)
    ensures var raw := EncodeHeader(h, tail);
            && |raw| >= 96 && raw[..32] == h.identityEd25519 && raw[32..64] == h.identityX25519
            && raw[64..96] == h.ephemeralX25519
            && raw[96..] == Varint(h.signedPrekeyId) + Varint(h.oneTimePrekeyId) + tail
  {
  }

  lemma AadLayout(s: Bytes, r: Bytes, n: nat)
    requires |s| == 16 && |r| == 16
    ensures var a := Aad(s, r, n); a[..16] == s && a[16..32] == r && a[32..] == Varint(n)
  {
  }

  // ---- Input that is refused ------------------------------------------------------

  /** Only version 1 and the types 0 and 1 are read. */
  lemma OtherVersionsAreRefused(raw: Bytes)
    requires Parse(raw).Ok?
    ensures |raw| >= 2 && raw[0] == 1 && (raw[1] == 0 || raw[1] == 1)
    ensures Parse(raw).value.bootstrap.Some? <==> raw[1] == 1
  {
  }

  lemma {:induction false} GroupsExtend(s: Bytes, x: Bytes)
    requires Groups(s).Ok?
    ensures Groups(s + x) == Ok((Groups(s).value.0, Groups(s).value.1 + x))
  {
    if s[0] < 0x80 {
      assert (s + x)[1..] == s[1..] + x;
    } else {
      GroupsExtend(s[1..], x);
      assert (s + x)[1..] == s[1..] + x;
    }
  }

  lemma ReadExtends(s: Bytes, x: Bytes)
    requires ReadVarint(s).Ok?
    ensures ReadVarint(s + x) == Ok((ReadVarint(s).value.0, ReadVarint(s).value.1 + x))
  {
    GroupsExtend(s, x);
  }

  lemma SplitExtends(s: Bytes, n: nat, x: Bytes)
    requires Split(s, n).Ok?
    ensures Split(s + x, n) == Ok((Split(s, n).value.0, Split(s, n).value.1 + x))
  {
    assert (s + x)[..n] == s[..n] && (s + x)[n..] == s[n..] + x;
  }

  lemma PrefixExtends(raw: Bytes, x: Bytes)
    requires ParsePrefix(raw).Ok?
    ensures ParsePrefix(raw + x) == Ok((ParsePrefix(raw).value.0, ParsePrefix(raw).value.1 + x))
  {
    hide ReadVarint, Split;
    var r1 := Split(raw, 16).value.1;
    var r2 := Split(r1, 16).value.1;
    var r3 := Split(r2, 32).value.1;
    SplitExtends(raw, 16, x);
    SplitExtends(r1, 16, x);
    SplitExtends(r2, 32, x);
    ReadExtends(r3, x);
    ReadExtends(ReadVarint(r3).value.1, x);
  }

  lemma HeaderExtends(raw: Bytes, x: Bytes)
    requires ParseHeader(raw).Ok?
    ensures ParseHeader(raw + x) == Ok((ParseHeader(raw).value.0, ParseHeader(raw).value.1 + x))
  {
    hide ReadVarint, Split;
    var r1 := Split(raw, 32).value.1;
    var r2 := Split(r1, 32).value.1;
    var r3 := Split(r2, 32).value.1;
    SplitExtends(raw, 32, x);
    SplitExtends(r1, 32, x);
    SplitExtends(r2, 32, x);
    ReadExtends(r3, x);
    ReadExtends(ReadVarint(r3).value.1, x);
  }

  /** Bytes behind an accepted input go to the ciphertext and nowhere else. */
  lemma ParseExtends(raw: Bytes, x: Bytes)
    requires Parse(raw).Ok?
    ensures Parse(raw + x) == Ok(Parse(raw).value.(ciphertext := Parse(raw).value.ciphertext + x))
  {
    hide ParsePrefix, ParseHeader, Split;
    var r1 := ParsePrefix(raw[2..]).value.1;
    var r2 := ParseOptional(raw[1], r1).value.1;
    assert (raw + x)[2..] == raw[2..] + x;
    PrefixExtends(raw[2..], x);
    if raw[1] == 1 {
      HeaderExtends(r1, x);
    }
    SplitExtends(r2, 12, x);
  }

  /** An encoded envelope that is cut before its ciphertext is refused, wherever the cut is. */
  lemma TruncationIsRefused(e: ByteEnvelope, n: nat)
    requires Sized(e) && n <= |Encode(e)|
    ensures Parse(Encode(e)[..n]).Ok? <==> n >= |Encode(e)| - |e.ciphertext|
  {
    var raw := Encode(e);
    var x := raw[n..];
    assert raw == raw[..n] + x;
    ParseOfEncode(e);
    if Parse(raw[..n]).Ok? {
      ParseExtends(raw[..n], x);
    }
    if n >= |raw| - |e.ciphertext| {
      var k := n - (|raw| - |e.ciphertext|);
      CutCiphertext(e, k);
      ParseOfEncode(e.(ciphertext := e.ciphertext[..k]));
    }
  }

  lemma CutCiphertext(e: ByteEnvelope, k: nat)
    requires k <= |e.ciphertext|
    ensures Encode(e)[..|Encode(e)| - |e.ciphertext| + k] == Encode(e.(ciphertext := e.ciphertext[..k]))
  {
    var head := Encode(e.(ciphertext := []));
    EncodeIsHead(e);
    EncodeIsHead(e.(ciphertext := e.ciphertext[..k]));
    assert (head + e.ciphertext)[..|head| + k] == head + e.ciphertext[..k];
  }

  lemma EncodeIsHead(e: ByteEnvelope)
    ensures Encode(e) == Encode(e.(ciphertext := [])) + e.ciphertext
  {
    hide EncodePrefix, EncodeHeader;
    var n, ct, p := e.nonce, e.ciphertext, PrefixOf(e);
    assert n + [] == n;
    if e.bootstrap.Some? {
      var h := e.bootstrap.value;
      HeaderThen(h, n + ct);
      HeaderThen(h, n);
      PrefixThen(p, EncodeHeader(h, n + ct));
      PrefixThen(p, EncodeHeader(h, n));
    } else {
      PrefixThen(p, n + ct);
      PrefixThen(p, n);
    }
  }

  lemma PrefixThen(p: Prefix, rest: Bytes)
    ensures EncodePrefix(p, rest) == EncodePrefix(p, []) + rest
  {
  }

  lemma HeaderThen(h: BootstrapHeader<Bytes, Bytes>, rest: Bytes)
    ensures EncodeHeader(h, rest) == EncodeHeader(h, []) + rest
  {
  }
}
