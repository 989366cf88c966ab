// Well-formed UTF-8, by the syntax of section 4 of RFC 3629, and what a cut between characters keeps.
module Utf8 {
  import opened BpeSpec

  predicate Tail(b: Byte) { 0x80 <= b <= 0xbf }

  // (b & 0xc0) === 0x80 (bpeCount.ts:222) is the test for a tail byte.
  lemma {:induction false} TailByMask(b: Byte)
    ensures Tail(b) <==> b - b % 0x40 == 0x80
  {
  }

  // The length of the well-formed character `s` begins with, or 0 when it begins with none.
  function CharLength(s: Bytes): (n: nat)
    ensures n <= 4 && n <= |s|
    ensures n > 0 ==> !Tail(s[0]) && forall i :: 1 <= i < n ==> Tail(s[i])
  {
    if s == [] then 0
    else if s[0] <= 0x7f then 1
    else if 0xc2 <= s[0] <= 0xdf then
      if |s| >= 2 && Tail(s[1]) then 2 else 0
    else if 0xe0 <= s[0] <= 0xef then
      if |s| >= 3 && Tail(s[1]) && Tail(s[2])
         && (s[0] == 0xe0 ==> s[1] >= 0xa0) && (s[0] == 0xed ==> s[1] <= 0x9f) then 3 else 0
    else if 0xf0 <= s[0] <= 0xf4 then
      if |s| >= 4 && Tail(s[1]) && Tail(s[2]) && Tail(s[3])
         && (s[0] == 0xf0 ==> s[1] >= 0x90) && (s[0] == 0xf4 ==> s[1] <= 0x8f) then 4 else 0
    else 0
  }

  ghost predicate WellFormed(s: Bytes)
    decreases |s|
  {
    s == [] || (CharLength(s) > 0 && WellFormed(s[CharLength(s)..]))
  }

  // A character's number: section 3 of RFC 3629 leaves out the surrogates.
  predicate IsScalar(c: int) { 0 <= c < 0x11_0000 && !(0xd800 <= c <= 0xdfff) }

  function Encode(c: int): (s: Bytes)
    requires IsScalar(c)
    ensures 1 <= |s| <= 4
  {
    if c < 0x80 then [c]
    else if c < 0x800 then [0xc0 + c / 0x40, TailOf(c)]
    else if c < 0x1_0000 then [0xe0 + c / 0x1000, TailOf(c / 0x40), TailOf(c)]
    else [0xf0 + c / 0x4_0000, TailOf(c / 0x1000), TailOf(c / 0x40), TailOf(c)]
  }

  // The tail byte of a number's low six bits.
  function TailOf(n: int): (b: Byte)
    ensures Tail(b)
  {
    var low: int := n % 0x40;
    0x80 + low
  }

  function EncodeAll(cs: seq<int>): Bytes
    requires forall i :: 0 <= i < |cs| ==> IsScalar(cs[i])
  {
    if cs == [] then [] else Encode(cs[0]) + EncodeAll(cs[1..])
  }

  lemma {:induction false} EncodedIsRead(c: int, rest: Bytes)
    requires IsScalar(c)
    ensures CharLength(Encode(c) + rest) == |Encode(c)|
  {
    var s := Encode(c) + rest;
    assert forall i :: 0 <= i < |Encode(c)| ==> s[i] == Encode(c)[i];
  }

  lemma {:induction false} ReadIsEncoded(s: Bytes) returns (c: int)
    requires CharLength(s) > 0
    ensures IsScalar(c) && Encode(c) == s[..CharLength(s)]
  {
    var n := CharLength(s);
    if n == 1 {
      c := s[0];
    } else if n == 2 {
      c := TwoBytes(s[0], s[1]);
    } else if n == 3 {
      c := ThreeBytes(s[0], s[1], s[2]);
    } else {
      c := FourBytes(s[0], s[1], s[2], s[3]);
    }
    assert Encode(c) == s[..n];
  }

  lemma {:induction false} SixBits(high: int, b: int) returns (c: int)
    requires 0x80 <= b <= 0xbf
    ensures c == high * 0x40 + (b - 0x80) && c / 0x40 == high && TailOf(c) == b
  {
    c := high * 0x40 + (b - 0x80);
  }

  lemma {:induction false} TwoBytes(a: int, x: int) returns (c: int)
    requires 0xc2 <= a <= 0xdf && 0x80 <= x <= 0xbf
    ensures IsScalar(c) && Encode(c) == [a, x]
  {
    c := SixBits(a - 0xc0, x);
  }

  lemma {:induction false} ThreeBytes(a: int, x: int, y: int) returns (c: int)
    requires 0xe0 <= a <= 0xef && 0x80 <= x <= 0xbf && 0x80 <= y <= 0xbf
    requires (a == 0xe0 ==> x >= 0xa0) && (a == 0xed ==> x <= 0x9f)
    ensures IsScalar(c) && Encode(c) == [a, x, y]
  {
    var high := SixBits(a - 0xe0, x);
    c := SixBits(high, y);
    assert c / 0x1000 == high / 0x40;
  }

  lemma {:induction false} FourBytes(a: int, x: int, y: int, z: int) returns (c: int)
    requires 0xf0 <= a <= 0xf4 && 0x80 <= x <= 0xbf && 0x80 <= y <= 0xbf && 0x80 <= z <= 0xbf
    requires (a == 0xf0 ==> x >= 0x90) && (a == 0xf4 ==> x <= 0x8f)
    ensures IsScalar(c) && Encode(c) == [a, x, y, z]
  {
    var top := SixBits(a - 0xf0, x);
    var high := SixBits(top, y);
    c := SixBits(high, z);
    assert c / 0x1000 == high / 0x40 && c / 0x4_0000 == top / 0x40;
  }

  // Well-formed text is the encoding of some characters, and every such encoding is well-formed.
  lemma {:induction false} EncodedIsWellFormed(cs: seq<int>)
    requires forall i :: 0 <= i < |cs| ==> IsScalar(cs[i])
    ensures WellFormed(EncodeAll(cs))
    decreases |cs|
  {
    if cs != [] {
      var s := EncodeAll(cs);
      EncodedIsRead(cs[0], EncodeAll(cs[1..]));
      EncodedIsWellFormed(cs[1..]);
      assert s[CharLength(s)..] == EncodeAll(cs[1..]);
    }
  }

  lemma {:induction false} WellFormedIsEncoded(s: Bytes) returns (cs: seq<int>)
    requires WellFormed(s)
    ensures (forall i :: 0 <= i < |cs| ==> IsScalar(cs[i])) && EncodeAll(cs) == s
    decreases |s|
  {
    cs := [];
    if s != [] {
      var n := CharLength(s);
      var c := ReadIsEncoded(s);
      var rest := WellFormedIsEncoded(s[n..]);
      cs := [c] + rest;
      assert cs[1..] == rest && s == s[..n] + s[n..];
    }
  }

  // Cutting before any byte that is not a tail byte cuts between characters.
  lemma {:induction false} CutBetween(s: Bytes, i: nat)
    requires WellFormed(s) && i < |s| && !Tail(s[i])
    ensures WellFormed(s[..i]) && WellFormed(s[i..])
    decreases |s|
  {
    if i == 0 {
      assert s[i..] == s;
    } else {
      var n := CharLength(s);
      assert n <= i;
      assert s[n..][i - n] == s[i];
      CutBetween(s[n..], i - n);
      assert s[n..][i - n..] == s[i..];
      assert s[..i][n..] == s[n..][..i - n];
      SameFirst(s, s[..i]);
    }
  }

  // The first character is read from its own bytes only.
  lemma {:induction false} SameFirst(s: Bytes, prefix: Bytes)
    requires prefix <= s && CharLength(s) <= |prefix|
    ensures CharLength(prefix) == CharLength(s)
  {
  }

  // Some byte among any four in a row, or among the first ones, begins a character.
  lemma {:induction false} StartNearby(s: Bytes, i: nat) returns (j: nat)
    requires WellFormed(s) && i < |s|
    ensures j <= i < j + 4 && !Tail(s[j])
    decreases |s|
  {
    var n := CharLength(s);
    if i < n {
      j := 0;
    } else {
      var k := StartNearby(s[n..], i - n);
      j := k + n;
    }
  }
}
