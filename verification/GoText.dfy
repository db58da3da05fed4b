/** Go strings are bytes: what len, slicing and strings.TrimSpace see, and what a database text column takes. */
module GoText {
  import opened Basics

  type Text = Bytes

  // ---- UTF-8 (section 4 of RFC 3629) ------------------------------------------

  predicate Continues(b: byte) { 0x80 <= b < 0xC0 }

  /** The length of the well-formed character at the head of `s`; 0 if there is none. */
  function CharLength(s: Bytes): (n: nat)
    ensures n <= |s|
  {
    if s == [] then 0
    else if s[0] < 0x80 then 1
    else if 0xC2 <= s[0] < 0xE0 && |s| >= 2 && Continues(s[1]) then 2
    else if 0xE0 <= s[0] < 0xF0 && |s| >= 3 && Continues(s[1]) && Continues(s[2])
         && (s[0] == 0xE0 ==> s[1] >= 0xA0) && (s[0] == 0xED ==> s[1] < 0xA0) then 3
    else if 0xF0 <= s[0] < 0xF5 && |s| >= 4 && Continues(s[1]) && Continues(s[2]) && Continues(s[3])
         && (s[0] == 0xF0 ==> s[1] >= 0x90) && (s[0] == 0xF4 ==> s[1] < 0x90) then 4
    else 0
  }

  predicate Utf8(s: Bytes)
  {
    s == [] || (CharLength(s) > 0 && Utf8(s[CharLength(s)..]))
  }

  /** A prefix of valid text is valid if and only if the cut does not fall inside a character. */
  lemma {:induction false} CutIff(s: Bytes, n: nat)
    requires Utf8(s) && n <= |s|
    ensures Utf8(s[..n]) <==> n == |s| || !Continues(s[n])
    decreases |s|
  {
    var k := CharLength(s);
    if n >= k && s != [] {
      assert CharLength(s[..n]) == k && s[..n][k..] == s[k..][..n - k];
      CutIff(s[k..], n - k);
    } else if n > 0 {
      assert Continues(s[n]) && CharLength(s[..n]) == 0;
    }
  }

  /** `n` letters and one character of two bytes. */
  function TwoByteEnd(n: nat): Bytes
  {
    if n == 0 then [0xC3, 0xA9] else [0x61] + TwoByteEnd(n - 1)
  }

  lemma {:induction false} TwoByteEndIsText(n: nat)
    ensures Utf8(TwoByteEnd(n)) && 0 !in TwoByteEnd(n)
    ensures |TwoByteEnd(n)| == n + 2 && TwoByteEnd(n)[n + 1] == 0xA9
  {
    var s := TwoByteEnd(n);
    if n == 0 {
      assert s[2..] == [];
    } else {
      TwoByteEndIsText(n - 1);
      assert s[1..] == TwoByteEnd(n - 1);
    }
  }

  /** A text column of the database takes UTF-8 without the zero character and refuses everything else. */
  predicate Storable(s: Text) { Utf8(s) && 0 !in s }

  function Truncate(s: Text, n: nat): Text { if |s| <= n then s else s[..n] }

  // ---- Characters by code point ------------------------------------------------

  /** A Unicode scalar value. */
  predicate IsScalar(cp: nat) { cp < 0xD800 || 0xE000 <= cp < 0x11_0000 }

  /** Its UTF-8 form: six bits to each byte but the first. */
  function Encode(cp: nat): Bytes
    requires IsScalar(cp)
  {
    if cp < 0x80 then [cp]
    else if cp < 0x800 then [0xC0 + cp / 0x40, 0x80 + cp % 0x40]
    else if cp < 0x1_0000 then [0xE0 + cp / 0x40 / 0x40, 0x80 + cp / 0x40 % 0x40, 0x80 + cp % 0x40]
    else [0xF0 + cp / 0x40 / 0x40 / 0x40, 0x80 + cp / 0x40 / 0x40 % 0x40, 0x80 + cp / 0x40 % 0x40, 0x80 + cp % 0x40]
  }

  /** The encoding of a scalar value is one character, whatever follows. */
  lemma EncodedIsOneChar(cp: nat, rest: Bytes)
    requires IsScalar(cp)
    ensures CharLength(Encode(cp) + rest) == |Encode(cp)|
  {
  }

  /** And every character is the encoding of a scalar value. */
  lemma CharsAreEncoded(s: Bytes) returns (cp: nat)
    requires CharLength(s) > 0
    ensures IsScalar(cp) && s[..CharLength(s)] == Encode(cp)
  {
    var n := CharLength(s);
    var lead: int := s[0];
    if n == 1 {
      cp := lead;
    } else {
      var a: int := s[1] - 0x80;
      if n == 2 {
        cp := SixBits(lead - 0xC0, a);
      } else {
        var b: int := s[2] - 0x80;
        if n == 3 {
          cp := SixBits(lead - 0xE0, a);
          cp := SixBits(cp, b);
        } else {
          var c: int := s[3] - 0x80;
          cp := SixBits(lead - 0xF0, a);
          cp := SixBits(cp, b);
          cp := SixBits(cp, c);
        }
      }
    }
  }

  lemma SixBits(hi: nat, lo: nat) returns (n: nat)
    requires lo < 0x40
    ensures n / 0x40 == hi && n % 0x40 == lo
  {
    n := hi * 0x40 + lo;
  }

  // ---- strings.TrimSpace ------------------------------------------------------

  /** One white-space character: the ASCII ones and the others with Unicode's White_Space property. */
  predicate IsSpace(s: Bytes)
  {
    || (|s| == 1 && (9 <= s[0] <= 13 || s[0] == 32))
    || s == [0xC2, 0x85] || s == [0xC2, 0xA0] || s == [0xE1, 0x9A, 0x80]
    || (|s| == 3 && s[0] == 0xE2 && s[1] == 0x80 && (0x80 <= s[2] <= 0x8A || s[2] == 0xA8 || s[2] == 0xA9 || s[2] == 0xAF))
    || s == [0xE2, 0x81, 0x9F] || s == [0xE3, 0x80, 0x80]
  }

  /** The length of the white-space character `s` starts with; 0 if there is none. */
  function SpaceAtStart(s: Bytes): (n: nat)
    ensures n <= |s| && (n > 0 ==> IsSpace(s[..n]))
  {
    if |s| >= 1 && IsSpace(s[..1]) then 1
    else if |s| >= 2 && IsSpace(s[..2]) then 2
    else if |s| >= 3 && IsSpace(s[..3]) then 3
    else 0
  }

  function SpaceAtEnd(s: Bytes): (n: nat)
    ensures n <= |s| && (n > 0 ==> IsSpace(s[|s| - n..]))
  {
    if |s| >= 1 && IsSpace(s[|s| - 1..]) then 1
    else if |s| >= 2 && IsSpace(s[|s| - 2..]) then 2
    else if |s| >= 3 && IsSpace(s[|s| - 3..]) then 3
    else 0
  }

  function TrimLeft(s: Text): Text
  {
    var n := SpaceAtStart(s);
    if n == 0 then s else TrimLeft(s[n..])
  }

  function TrimRight(s: Text): Text
  {
    var n := SpaceAtEnd(s);
    if n == 0 then s else TrimRight(s[..|s| - n])
  }

  function TrimSpace(s: Text): Text { TrimRight(TrimLeft(s)) }

  /** White-space characters in a row. */
  predicate Blank(s: Bytes)
  {
    s == [] || exists n :: 0 < n <= |s| && IsSpace(s[..n]) && Blank(s[n..])
  }

  lemma {:induction false} BlankThen(s: Bytes, c: Bytes)
    requires Blank(s) && IsSpace(c) && c != []
    ensures Blank(s + c)
    decreases |s|
  {
    hide IsSpace;
    if s == [] {
      assert (s + c)[..|c|] == c && (s + c)[|c|..] == [];
    } else {
      var n :| 0 < n <= |s| && IsSpace(s[..n]) && Blank(s[n..]);
      BlankThen(s[n..], c);
      assert (s + c)[..n] == s[..n] && (s + c)[n..] == s[n..] + c;
    }
  }

  lemma {:induction false} TrimLeftSplits(s: Text) returns (a: Text)
    ensures s == a + TrimLeft(s) && Blank(a) && SpaceAtStart(TrimLeft(s)) == 0
    decreases |s|
  {
    hide IsSpace, SpaceAtStart;
    a := [];
    var n := SpaceAtStart(s);
    if n > 0 {
      var a' := TrimLeftSplits(s[n..]);
      a := s[..n] + a';
      assert a[..n] == s[..n] && a[n..] == a';
    }
  }

  lemma {:induction false} TrimRightSplits(s: Text) returns (b: Text)
    ensures s == TrimRight(s) + b && Blank(b) && SpaceAtEnd(TrimRight(s)) == 0
    decreases |s|
  {
    hide IsSpace, SpaceAtEnd;
    b := [];
    var n := SpaceAtEnd(s);
    if n > 0 {
      var m := |s| - n;
      var b' := TrimRightSplits(s[..m]);
      b := b' + s[m..];
      BlankThen(b', s[m..]);
      assert s == s[..m] + s[m..];
    }
  }

  lemma NoSpaceInPrefix(t: Text, b: Text)
    requires SpaceAtStart(t + b) == 0
    ensures SpaceAtStart(t) == 0
  {
    hide IsSpace;
    forall k | 1 <= k <= |t| ensures t[..k] == (t + b)[..k] { }
  }

  /** TrimSpace takes exactly the white space at both ends. */
  lemma TrimSpaceSplits(s: Text) returns (a: Text, b: Text)
    ensures s == a + TrimSpace(s) + b && Blank(a) && Blank(b)
    ensures SpaceAtStart(TrimSpace(s)) == 0 && SpaceAtEnd(TrimSpace(s)) == 0
  {
    hide IsSpace, SpaceAtStart, SpaceAtEnd, Blank;
    a := TrimLeftSplits(s);
    b := TrimRightSplits(TrimLeft(s));
    NoSpaceInPrefix(TrimSpace(s), b);
  }

  /** The white space of Unicode, as Go has it. */
  lemma SpaceIff(cp: nat)
    requires IsScalar(cp)
    ensures IsSpace(Encode(cp)) <==>
              || 9 <= cp <= 13 || cp == 0x20 || cp == 0x85 || cp == 0xA0 || cp == 0x1680 || 0x2000 <= cp <= 0x200A
              || cp == 0x2028 || cp == 0x2029 || cp == 0x202F || cp == 0x205F || cp == 0x3000
  {
  }
}
