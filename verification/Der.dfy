/**
 packages/schat_cert_pinning/ios/Classes/SchatCertPinningPlugin.swift: the walk
 through a DER certificate to its SubjectPublicKeyInfo.
 */
module Der {
  import opened Basics

  // ---- Length octets --------------------------------------------------------

  function BigEndian(s: Bytes): nat
  {
    if s == [] then 0 else BigEndian(s[..|s| - 1]) * 0x100 + s[|s| - 1]
  }

  /** The length at `off` and the number of octets it takes; nothing if it is not there or not readable. */
  function Length(data: Bytes, off: nat): Option<(nat, nat)>
  {
    if off >= |data| then None
    else if data[off] < 0x80 then Some((data[off], 1))
    else
      var count := data[off] - 0x80;
      if 0 < count <= 4 && off + 1 + count <= |data|
      then Some((BigEndian(data[off + 1..off + 1 + count]), 1 + count)) else None
  }

  method ReadDerLength(data: Bytes, off: nat) returns (r: Option<(nat, nat)>)
    ensures r == Length(data, off)
  {
    if off >= |data| {
      return None;
    }
    var first := data[off];
    if first < 0x80 {
      return Some((first, 1));
    }
    var count: nat := first % 0x80;
    if !(count > 0 && count <= 4 && off + 1 + count <= |data|) {
      return None;
    }
    var v: nat := 0;
    for i := 0 to count
      invariant v == BigEndian(data[off + 1..off + 1 + i])
    {
      ghost var s := data[off + 1..off + 1 + i + 1];
      assert s[..|s| - 1] == data[off + 1..off + 1 + i];
      v := v * 0x100 + data[off + 1 + i];
    }
    return Some((v, 1 + count));
  }

  // ---- The walk -------------------------------------------------------------

  /** An unreadable length counts as (0, 0), so the cursor moves past the tag only. */
  function LengthOrZero(data: Bytes, off: nat): (nat, nat)
  {
    var r := Length(data, off);
    if r.Some? then r.value else (0, 0)
  }

  /** Behind the element whose tag is at `p`. */
  function Past(data: Bytes, p: nat): (q: nat)
    ensures q > p
  {
    var (l, ls) := LengthOrZero(data, p + 1);
    p + 1 + ls + l
  }

  function Skip(data: Bytes, p: nat, n: nat): Option<nat>
    decreases n
  {
    if n == 0 then Some(p)
    else if p >= |data| then None
    else Skip(data, Past(data, p), n - 1)
  }

  /** The first element of tbsCertificate after the optional version. */
  function FirstField(data: Bytes): Option<nat>
  {
    if |data| <= 4 || data[0] != 0x30 then None
    else
      var (outerLen, outerLenSize) := LengthOrZero(data, 1);
      var p := 1 + outerLenSize;
      if outerLen == 0 || p >= |data| || data[p] != 0x30 then None
      else
        var q := p + 1 + LengthOrZero(data, p + 1).1;
        Some(if q < |data| && data[q] == 0xA0 then Past(data, q) else q)
  }

  function Extract(data: Bytes): Option<Bytes>
  {
    var first := FirstField(data);
    if first.None? then None
    else
      var p := Skip(data, first.value, 5);
      if p.None? || p.value >= |data| || data[p.value] != 0x30 || Past(data, p.value) > |data| then None
      else Some(data[p.value..Past(data, p.value)])
  }

  predicate IsSlice(data: Bytes, s: Bytes, p: nat)
  {
    p + |s| <= |data| && s == data[p..p + |s|]
  }

  /** On any bytes, what is returned is a slice of them that starts with a SEQUENCE tag. */
  lemma ExtractIsSequence(data: Bytes)
    requires Extract(data).Some?
    ensures var s := Extract(data).value; s != [] && s[0] == 0x30 && exists p :: IsSlice(data, s, p)
  {
    var s, p := Extract(data).value, Skip(data, FirstField(data).value, 5).value;
    assert IsSlice(data, s, p);
  }

  /** readDerLength with (0, 0) in place of nil. */
  method ReadOrZero(data: Bytes, off: nat) returns (l: nat, ls: nat)
    ensures (l, ls) == LengthOrZero(data, off)
  {
    var r := ReadDerLength(data, off);
    l, ls := if r.Some? then r.value.0 else 0, if r.Some? then r.value.1 else 0;
  }

  /** The walk terminates and stays inside the data on any bytes. */
  method ExtractSubjectPublicKeyInfo(data: Bytes) returns (r: Option<Bytes>)
    ensures r == Extract(data)
  {
    hide LengthOrZero;
    var p := 0;
    if !(|data| > 4 && data[p] == 0x30) {
      return None;
    }
    var outerLen, outerLenSize := ReadOrZero(data, p + 1);
    if outerLen == 0 {
      return None;
    }
    p := p + 1 + outerLenSize;
    if !(p < |data| && data[p] == 0x30) {
      return None;
    }
    var _, tbsLenSize := ReadOrZero(data, p + 1);
    p := p + 1 + tbsLenSize;
    if p < |data| && data[p] == 0xA0 {
      var vl, vls := ReadOrZero(data, p + 1);
      p := p + 1 + vls + vl;
    }
    for i := 0 to 5
      invariant p >= 0 && Skip(data, p, 5 - i) == Skip(data, FirstField(data).value, 5)
      invariant FirstField(data).Some?
    {
      if p >= |data| {
        return None;
      }
      var l, ls := ReadOrZero(data, p + 1);
      p := p + 1 + ls + l;
    }
    if !(p < |data| && data[p] == 0x30) {
      return None;
    }
    var spkiLen, spkiLenSize := ReadOrZero(data, p + 1);
    var totalLen := 1 + spkiLenSize + spkiLen;
    if p + totalLen > |data| {
      return None;
    }
    return Some(data[p..p + totalLen]);
  }

  // ---- Certificates (section 4.1 of RFC 5280) -------------------------------------

  /** An element with its tag, its length octets and its contents. */
  datatype Tlv = Tlv(tag: byte, length: Bytes, contents: Bytes)

  /** Definite form, short or long with at most four octets (section 8.1.3 of X.690); not necessarily minimal. */
  predicate LengthOctets(l: Bytes, n: int)
  {
    || (|l| == 1 && l[0] == n < 0x80)
    || (2 <= |l| <= 5 && l[0] == 0x80 + |l| - 1 && BigEndian(l[1..]) == n)
  }

  predicate Valid(t: Tlv) { LengthOctets(t.length, |t.contents|) }

  function Octets(t: Tlv): Bytes { [t.tag] + t.length + t.contents }

  /** The fields of tbsCertificate up to the key, and everything behind it. */
  datatype Certificate = Certificate(
    version: Option<Tlv>, serial: Tlv, signature: Tlv, issuer: Tlv, validity: Tlv, subject: Tlv, spki: Tlv,
    extensions: Bytes, tbsLength: Bytes, outerLength: Bytes, signed: Bytes)

  function FromSpki(c: Certificate): Bytes { Octets(c.spki) + (c.extensions + c.signed) }

  function InARow(ts: seq<Tlv>, rest: Bytes): Bytes
  {
    if ts == [] then rest else Octets(ts[0]) + InARow(ts[1..], rest)
  }

  function Fields(c: Certificate): seq<Tlv> { [c.serial, c.signature, c.issuer, c.validity, c.subject] }

  function FromSerial(c: Certificate): Bytes { InARow(Fields(c), FromSpki(c)) }

  function FromVersion(c: Certificate): Bytes
  {
    (if c.version.Some? then Octets(c.version.value) else []) + FromSerial(c)
  }

  function FromTbs(c: Certificate): Bytes { [0x30] + (c.tbsLength + FromVersion(c)) }

  function Encode(c: Certificate): Bytes { [0x30] + (c.outerLength + FromTbs(c)) }

  predicate WellFormed(c: Certificate)
  {
    && (c.version.Some? ==> Valid(c.version.value) && c.version.value.tag == 0xA0)
    && Valid(c.serial) && c.serial.tag == 0x02
    && Valid(c.signature) && Valid(c.issuer) && Valid(c.validity) && Valid(c.subject)
    && Valid(c.spki) && c.spki.tag == 0x30
    && LengthOctets(c.tbsLength, |FromVersion(c)| - |c.signed|)
    && LengthOctets(c.outerLength, |FromTbs(c)|)
  }

  /** At the head of what is left, length octets are read as the length they spell. */
  lemma ReadsLength(data: Bytes, p: nat, l: Bytes, n: int, rest: Bytes)
    requires LengthOctets(l, n) && p < |data| && data[p + 1..] == l + rest
    ensures LengthOrZero(data, p + 1) == (n, |l|)
    ensures data[p + 1 + |l|..] == rest
  {
    assert data[p + 1] == data[p + 1..][0];
    if |l| > 1 {
      assert data[p + 2..p + 1 + |l|] == data[p + 1..][1..|l|] == l[1..];
    }
    assert data[p + 1 + |l|..] == data[p + 1..][|l|..];
  }

  /** Skipping an element lands on what follows it. */
  lemma PassesElement(data: Bytes, p: nat, t: Tlv, rest: Bytes)
    requires Valid(t) && p <= |data| && data[p..] == Octets(t) + rest
    ensures p < |data| && data[p] == t.tag
    ensures Past(data, p) == p + |Octets(t)| <= |data|
    ensures data[p..Past(data, p)] == Octets(t) && data[Past(data, p)..] == rest
  {
    assert data[p] == data[p..][0];
    assert data[p + 1..] == data[p..][1..] == t.length + (t.contents + rest);
    ReadsLength(data, p, t.length, |t.contents|, t.contents + rest);
    var q := Past(data, p);
    assert data[q..] == data[p..][|Octets(t)|..];
    assert data[p..q] == data[p..][..|Octets(t)|];
  }

  lemma {:induction false} PassesAll(data: Bytes, p: nat, ts: seq<Tlv>, rest: Bytes)
    requires (forall t :: t in ts ==> Valid(t)) && p <= |data| && data[p..] == InARow(ts, rest)
    ensures Skip(data, p, |ts|).Some? && Skip(data, p, |ts|).value <= |data|
    ensures data[Skip(data, p, |ts|).value..] == rest
    decreases |ts|
  {
    hide Past, Octets, Valid;
    if ts != [] {
      PassesElement(data, p, ts[0], InARow(ts[1..], rest));
      PassesAll(data, Past(data, p), ts[1..], rest);
    }
  }

  /** A SEQUENCE header at `p` is a tag and a readable length, with the contents behind it. */
  lemma EntersSequence(data: Bytes, p: nat, l: Bytes, n: int, rest: Bytes)
    requires LengthOctets(l, n) && p <= |data| && data[p..] == [0x30] + (l + rest)
    ensures p < |data| && data[p] == 0x30 && LengthOrZero(data, p + 1) == (n, |l|)
    ensures p + 1 + |l| <= |data| && data[p + 1 + |l|..] == rest
  {
    assert data[p] == data[p..][0];
    assert data[p + 1..] == data[p..][1..];
    ReadsLength(data, p, l, n, rest);
  }

  lemma LongEnough(c: Certificate)
    requires WellFormed(c)
    ensures |Encode(c)| > 4
  {
    assert |FromSerial(c)| >= |Octets(c.serial)| + |Octets(c.signature)| by {
      assert FromSerial(c) == Octets(c.serial) + InARow(Fields(c)[1..], FromSpki(c));
      assert Fields(c)[1..][0] == c.signature;
    }
  }

  lemma OuterHeader(c: Certificate)
    requires WellFormed(c)
    ensures var data := Encode(c);
            && |data| > 4 && data[0] == 0x30 && FromTbs(c) != []
            && LengthOrZero(data, 1) == (|FromTbs(c)|, |c.outerLength|)
            && 1 + |c.outerLength| <= |data| && data[1 + |c.outerLength|..] == FromTbs(c)
  {
    LongEnough(c);
    hide LengthOrZero, FromVersion;
    assert Encode(c)[0..] == Encode(c);
    EntersSequence(Encode(c), 0, c.outerLength, |FromTbs(c)|, FromTbs(c));
  }

  lemma TbsHeader(c: Certificate, data: Bytes, p: nat)
    requires WellFormed(c) && p <= |data| && data[p..] == FromTbs(c)
    ensures p < |data| && data[p] == 0x30 && LengthOrZero(data, p + 1).1 == |c.tbsLength|
    ensures p + 1 + |c.tbsLength| <= |data| && data[p + 1 + |c.tbsLength|..] == FromVersion(c)
  {
    hide LengthOrZero, FromVersion;
    EntersSequence(data, p, c.tbsLength, |FromVersion(c)| - |c.signed|, FromVersion(c));
  }

  lemma EntersTbs(c: Certificate) returns (q: nat)
    requires WellFormed(c)
    ensures var data := Encode(c);
            && q <= |data| && data[q..] == FromVersion(c)
            && FirstField(data) == Some(if q < |data| && data[q] == 0xA0 then Past(data, q) else q)
  {
    hide LengthOrZero, Past, Encode, FromTbs, FromVersion;
    OuterHeader(c);
    var p := 1 + |c.outerLength|;
    TbsHeader(c, Encode(c), p);
    q := p + 1 + |c.tbsLength|;
  }

  lemma FindsFirstField(c: Certificate)
    requires WellFormed(c)
    ensures FirstField(Encode(c)).Some?
    ensures FirstField(Encode(c)).value <= |Encode(c)|
    ensures Encode(c)[FirstField(Encode(c)).value..] == FromSerial(c)
  {
    var q := EntersTbs(c);
    hide FirstField, LengthOctets, Octets, InARow, Past, Encode;
    var data := Encode(c);
    if c.version.Some? {
      PassesElement(data, q, c.version.value, FromSerial(c));
    } else {
      assert FromVersion(c) == FromSerial(c);
      SerialComesFirst(c, data, q);
    }
  }

  lemma SerialComesFirst(c: Certificate, data: Bytes, q: nat)
    requires q <= |data| && data[q..] == FromSerial(c)
    ensures q < |data| && data[q] == c.serial.tag
  {
    assert data[q..][0] == c.serial.tag;
  }

  /** From every well-formed certificate, with or without a version, exactly the key element is returned. */
  lemma ExtractsSpki(c: Certificate)
    requires WellFormed(c)
    ensures Extract(Encode(c)) == Some(Octets(c.spki))
  {
    FindsFirstField(c);
    hide FirstField, Encode, Octets, Past;
    var data := Encode(c);
    PassesAll(data, FirstField(data).value, Fields(c), FromSpki(c));
    PassesElement(data, Skip(data, FirstField(data).value, 5).value, c.spki, c.extensions + c.signed);
  }

  // ---- Length octets by themselves ------------------------------------------------

  function Pow256(k: nat): (p: nat)
    ensures p >= 1
  {
    if k == 0 then 1 else 256 * Pow256(k - 1)
  }

  /** The last `k` digits of `n` to the base 256, most significant first: what a DER encoder writes. */
  function Digits(n: nat, k: nat): (s: Bytes)
    ensures |s| == k
  {
    if k == 0 then [] else Digits(n / 256, k - 1) + [n % 256]
  }

  /** Octets are read as the number whose digits they are. */
  lemma {:induction false} BigEndianOfDigits(n: nat, k: nat)
    requires n < Pow256(k)
    ensures BigEndian(Digits(n, k)) == n
  {
    if k > 0 {
      BigEndianOfDigits(n / 256, k - 1);
      var s := Digits(n, k);
      assert s[..k - 1] == Digits(n / 256, k - 1);
    }
  }

  /** A length is read exactly where definite length octets of at most four bytes stand. */
  lemma LengthIff(data: Bytes, off: nat, n: nat, k: nat)
    ensures Length(data, off) == Some((n, k)) <==> off + k <= |data| && LengthOctets(data[off..off + k], n)
  {
    if off + k <= |data| && k > 0 {
      var l := data[off..off + k];
      assert l[0] == data[off] && l[1..] == data[off + 1..off + k];
    }
  }

  /** Nothing is extracted unless the data starts with a non-empty SEQUENCE whose first element is one too. */
  lemma OtherShapesAreRefused(data: Bytes)
    requires Extract(data).Some?
    ensures |data| > 4 && data[0] == 0x30 && LengthOrZero(data, 1).0 > 0
    ensures var p := 1 + LengthOrZero(data, 1).1; p < |data| && data[p] == 0x30
  {
  }
}
