/** UTF-8 validity as the standard library checks it (section 4 of RFC 3629). */
module Utf8 {
  import opened Bytes

  predicate Continuation(b: byte) {
    0x80 <= b <= 0xBF
  }

  /** The length of the character the string starts with; 0 if it starts with none. */
  function Width(s: Bytes): (w: nat)
    ensures w <= |s|
  {
    if s == [] then 0
    else if s[0] <= 0x7F then 1
    else if |s| >= 2 && 0xC2 <= s[0] <= 0xDF && Continuation(s[1]) then 2
    else if |s| >= 3 && 0xE0 <= s[0] <= 0xEF && Continuation(s[1]) && Continuation(s[2])
      && (s[0] == 0xE0 ==> 0xA0 <= s[1]) && (s[0] == 0xED ==> s[1] <= 0x9F) then 3
    else if |s| >= 4 && 0xF0 <= s[0] <= 0xF4 && Continuation(s[1]) && Continuation(s[2]) && Continuation(s[3])
      && (s[0] == 0xF0 ==> 0x90 <= s[1]) && (s[0] == 0xF4 ==> s[1] <= 0x8F) then 4
    else 0
  }

  predicate Valid(s: Bytes)
    decreases |s|
  {
    s == [] || (Width(s) > 0 && Valid(s[Width(s)..]))
  }

  predicate Ascii(s: Bytes) {
    forall i :: 0 <= i < |s| ==> s[i] <= 0x7F
  }

  lemma {:induction false} AsciiValid(s: Bytes)
    requires Ascii(s)
    ensures Valid(s)
  {
    if s != [] { AsciiValid(s[1..]); }
  }

  /** What follows leaves the first character as it is. */
  lemma FirstKept(a: Bytes, b: Bytes)
    requires Width(a) > 0
    ensures Width(a + b) == Width(a)
  {
    assert forall i :: 0 <= i < |a| ==> (a + b)[i] == a[i];
  }

  lemma {:induction false} ConcatValid(a: Bytes, b: Bytes)
    requires Valid(a) && Valid(b)
    ensures Valid(a + b)
    decreases |a|
  {
    if a == [] {
      assert a + b == b;
    } else {
      var w := Width(a);
      FirstKept(a, b);
      DropOfConcat(a, b, w);
      ConcatValid(a[w..], b);
    }
  }

  lemma NestedCut(s: Bytes, w: nat, k: nat)
    requires w <= k <= |s|
    ensures s[..k][w..] == s[w..][..k - w] && s[w..][k - w..] == s[k..]
  {
  }

  /** The first character lies wholly before a cut right after an ASCII character. */
  lemma FirstBeforeCut(s: Bytes, k: nat)
    requires Width(s) > 0 && 0 < k <= |s| && s[k - 1] <= 0x7F
    ensures Width(s) <= k && Width(s[..k]) == Width(s)
  {
    assert forall i :: 0 <= i < k ==> s[..k][i] == s[i];
  }

  /** A valid string may be cut right after an ASCII character, and both parts are valid. */
  lemma {:induction false} CutValid(s: Bytes, k: nat)
    requires Valid(s) && 0 < k <= |s| && s[k - 1] <= 0x7F
    ensures Valid(s[..k]) && Valid(s[k..])
    decreases |s|
  {
    var w := Width(s);
    FirstBeforeCut(s, k);
    NestedCut(s, w, k);
    if w < k {
      assert s[w..][k - w - 1] == s[k - 1];
      CutValid(s[w..], k - w);
    } else {
      assert Valid([]);
    }
  }

  // ----- the encoding of section 3 of RFC 3629 -----

  /** A character number: at most 10FFFF, and no surrogate. */
  predicate Scalar(c: nat) {
    c <= 0x10FFFF && !(0xD800 <= c <= 0xDFFF)
  }

  function Encode(c: nat): Bytes
    requires Scalar(c)
  {
    if c < 0x80 then [c]
    else if c < 0x800 then [0xC0 + c / 64, 0x80 + c % 64]
    else if c < 0x1_0000 then [0xE0 + c / 4096, 0x80 + c / 64 % 64, 0x80 + c % 64]
    else [0xF0 + c / 262144, 0x80 + c / 4096 % 64, 0x80 + c / 64 % 64, 0x80 + c % 64]
  }

  predicate Scalars(cs: seq<nat>) {
    forall i :: 0 <= i < |cs| ==> Scalar(cs[i])
  }

  function EncodeAll(cs: seq<nat>): Bytes
    requires Scalars(cs)
  {
    if cs == [] then [] else Encode(cs[0]) + EncodeAll(cs[1..])
  }

  lemma TwoBytes(c: nat)
    requires 0x80 <= c < 0x800
    ensures var e := Encode(c); |e| == 2 && 0xC2 <= e[0] <= 0xDF && Continuation(e[1])
  {
  }

  lemma ThreeBytes(c: nat)
    requires Scalar(c) && 0x800 <= c < 0x1_0000
    ensures var e := Encode(c);
      && |e| == 3 && 0xE0 <= e[0] <= 0xEF && Continuation(e[1]) && Continuation(e[2])
      && (e[0] == 0xE0 ==> 0xA0 <= e[1]) && (e[0] == 0xED ==> e[1] <= 0x9F)
  {
    var high := c / 4096;
    assert c / 64 == high * 64 + c / 64 % 64;
  }

  lemma FourBytes(c: nat)
    requires Scalar(c) && 0x1_0000 <= c
    ensures var e := Encode(c);
      && |e| == 4 && 0xF0 <= e[0] <= 0xF4 && Continuation(e[1]) && Continuation(e[2]) && Continuation(e[3])
      && (e[0] == 0xF0 ==> 0x90 <= e[1]) && (e[0] == 0xF4 ==> e[1] <= 0x8F)
  {
    var high := c / 262144;
    assert c / 4096 == high * 64 + c / 4096 % 64;
  }

  lemma EncodedWidth(c: nat, rest: Bytes)
    requires Scalar(c)
    ensures Width(Encode(c) + rest) == |Encode(c)| > 0
  {
    if 0x1_0000 <= c {
      FourBytes(c);
    } else if 0x800 <= c {
      ThreeBytes(c);
    } else if 0x80 <= c {
      TwoBytes(c);
    }
    var e := Encode(c);
    FirstKept(e, rest);
  }

  lemma DecodeTwo(s: Bytes) returns (c: nat)
    requires Width(s) == 2
    ensures Scalar(c) && Encode(c) == s[..2]
  {
    c := (s[0] as int - 0xC0) * 64 + (s[1] as int - 0x80);
    assert c / 64 == s[0] as int - 0xC0 && c % 64 == s[1] as int - 0x80;
  }

  lemma DecodeThree(s: Bytes) returns (c: nat)
    requires Width(s) == 3
    ensures Scalar(c) && Encode(c) == s[..3]
  {
    var high := (s[0] as int - 0xE0) * 64 + (s[1] as int - 0x80);
    c := high * 64 + (s[2] as int - 0x80);
    assert c / 64 == high && c % 64 == s[2] as int - 0x80;
    assert c / 4096 == s[0] as int - 0xE0 && high % 64 == s[1] as int - 0x80;
  }

  lemma DecodeFour(s: Bytes) returns (c: nat)
    requires Width(s) == 4
    ensures Scalar(c) && Encode(c) == s[..4]
  {
    var high := (s[0] as int - 0xF0) * 64 + (s[1] as int - 0x80);
    var mid := high * 64 + (s[2] as int - 0x80);
    c := mid * 64 + (s[3] as int - 0x80);
    assert c / 64 == mid && c % 64 == s[3] as int - 0x80;
    assert c / 4096 == high && mid % 64 == s[2] as int - 0x80;
    assert c / 262144 == s[0] as int - 0xF0 && high % 64 == s[1] as int - 0x80;
  }

  lemma DecodeFirst(s: Bytes) returns (c: nat)
    requires Width(s) > 0
    ensures Scalar(c) && Encode(c) == s[..Width(s)]
  {
    if Width(s) == 1 {
      c := s[0];
    } else if Width(s) == 2 {
      c := DecodeTwo(s);
    } else if Width(s) == 3 {
      c := DecodeThree(s);
    } else {
      c := DecodeFour(s);
    }
  }

  lemma {:induction false} EncodedIsValid(cs: seq<nat>)
    requires Scalars(cs)
    ensures Valid(EncodeAll(cs))
  {
    if cs != [] {
      var rest := EncodeAll(cs[1..]);
      EncodedIsValid(cs[1..]);
      EncodedWidth(cs[0], rest);
      BehindConcat(Encode(cs[0]), rest);
    }
  }

  lemma EncodedBehind(c: nat, rest: seq<nat>)
    requires Scalar(c) && Scalars(rest)
    ensures Scalars([c] + rest) && EncodeAll([c] + rest) == Encode(c) + EncodeAll(rest)
  {
    var cs := [c] + rest;
    assert cs[1..] == rest;
  }

  lemma {:induction false} ValidIsEncoded(s: Bytes) returns (cs: seq<nat>)
    requires Valid(s)
    ensures Scalars(cs) && EncodeAll(cs) == s
    decreases |s|
  {
    if s == [] {
      cs := [];
    } else {
      var w := Width(s);
      var c := DecodeFirst(s);
      var rest := ValidIsEncoded(s[w..]);
      EncodedBehind(c, rest);
      TakeAndDrop(s, w);
      cs := [c] + rest;
    }
  }

  /** What is accepted as text is exactly what encodes some characters. */
  lemma ValidExactly(s: Bytes)
    ensures Valid(s) <==> exists cs :: Scalars(cs) && EncodeAll(cs) == s
  {
    if Valid(s) {
      var cs := ValidIsEncoded(s);
    }
    if cs :| Scalars(cs) && EncodeAll(cs) == s {
      EncodedIsValid(cs);
    }
  }
}
