/** avahi-common/utf8.c: which byte strings count as UTF-8.
    The scanning loop is proved to accept exactly the encodings of sequences of
    acceptable code points. */
module Utf8 {
  import opened Bytes

  /** A continuation byte, 10xxxxxx. */
  predicate IsTail(b: byte) {
    128 <= b < 192
  }

  /** The macro UNICODE_VALID: below 0x110000, no surrogate, no noncharacter. */
  predicate UnicodeValid(c: nat) {
    c < 0x110000 && !(0xD800 <= c < 0xE000) && !(0xFDD0 <= c <= 0xFDEF) && c % 0x10000 < 0xFFFE
  }

  /** Length of the well-formed character at the front of s, or 0 when there is none. */
  function FrontLength(s: Text): (n: nat)
    requires s != []
    ensures n <= |s| && n <= 4
  {
    var b := s[0];
    if b < 128 then 1
    else if 192 <= b < 224 then
      if b >= 194 && |s| >= 2 && IsTail(s[1]) then 2 else 0
    else if 224 <= b < 240 then
      if |s| >= 3 && IsTail(s[1]) && IsTail(s[2]) && Acceptable(Value3(b - 224, s[1], s[2]), 0x800) then 3 else 0
    else if 240 <= b < 248 then
      if |s| >= 4 && IsTail(s[1]) && IsTail(s[2]) && IsTail(s[3])
         && Acceptable(Value3(Value1(b - 240, s[1]), s[2], s[3]), 0x10000) then 4 else 0
    else 0
  }

  function Value1(v: nat, b: byte): (r: nat)
    requires IsTail(b)
  {
    v * 64 + (b - 128)
  }

  function Value3(v: nat, b: byte, c: byte): (r: nat)
    requires IsTail(b) && IsTail(c)
  {
    Value1(Value1(v, b), c)
  }

  predicate Acceptable(v: nat, min: nat) {
    v >= min && UnicodeValid(v)
  }

  /** s splits into well-formed characters. */
  predicate WellFormed(s: Text)
    decreases |s|
  {
    s == [] || (FrontLength(s) > 0 && WellFormed(s[FrontLength(s)..]))
  }

  /** The branch for three and four bytes: continuation bytes are folded into a value that is then checked. */
  method LongLength(s: Text, p: nat) returns (n: nat)
    requires p < |s| && s[p] >= 128 && !(192 <= s[p] < 224)
    ensures n == FrontLength(s[p..])
  {
    var min: nat, val: nat, q: nat := 0x800, 0, p;
    if 224 <= s[p] < 240 {
      val := s[p] - 224;
    } else if 240 <= s[p] < 248 {
      min, val := 0x10000, s[p] - 240;
      q := q + 1;
      if !IsTail(At(s, q)) { return 0; }
      val := val * 64 + (s[q] - 128);
    } else {
      return 0;
    }
    if !IsTail(At(s, q + 1)) { return 0; }
    val := val * 64 + (s[q + 1] - 128);
    if !IsTail(At(s, q + 2)) { return 0; }
    val := val * 64 + (s[q + 2] - 128);
    if val < min || !UnicodeValid(val) { return 0; }
    return q + 3 - p;
  }

  /** The scan of avahi_utf8_valid, byte by byte. */
  method Utf8Valid(s: Text) returns (ok: bool)
    ensures ok <==> WellFormed(s)
  {
    var p := 0;
    while p < |s|
      invariant 0 <= p <= |s|
      invariant WellFormed(s) <==> WellFormed(s[p..])
    {
      ghost var rest := s[p..];
      if s[p] < 128 {
        p := p + 1;
        assert s[p..] == rest[1..];
      } else if 192 <= s[p] < 224 {
        if s[p] < 194 { return false; }
        if !IsTail(At(s, p + 1)) { return false; }
        p := p + 2;
        assert s[p..] == rest[2..];
      } else {
        var n := LongLength(s, p);
        if n == 0 { return false; }
        p := p + n;
        assert s[p..] == rest[n..];
      }
    }
    return true;
  }

  /** The UTF-8 encoding form of one code point (section 3 of RFC 3629). */
  function Encode(c: nat): (s: Text)
    requires c < 0x110000
    ensures 1 <= |s| <= 4
  {
    if c < 0x80 then [c]
    else if c < 0x800 then [192 + c / 64, 128 + c % 64]
    else if c < 0x10000 then [224 + c / 4096, 128 + c / 64 % 64, 128 + c % 64]
    else [240 + c / 262144, 128 + c / 4096 % 64, 128 + c / 64 % 64, 128 + c % 64]
  }

  /** Code points the scan lets through: up to 0x10FFFF, without the surrogates and without the noncharacters, which are
      0xFDD0 to 0xFDEF and the last two of each plane; RFC 3629 would not refuse the latter. */
  predicate Scalars(cs: seq<nat>) {
    forall i :: 0 <= i < |cs| ==>
      && cs[i] <= 0x10FFFF && (cs[i] < 0xD800 || cs[i] > 0xDFFF) && (cs[i] < 0xFDD0 || cs[i] > 0xFDEF)
      && cs[i] % 0x10000 != 0xFFFE && cs[i] % 0x10000 != 0xFFFF
  }

  function EncodeAll(cs: seq<nat>): (s: Text)
    requires Scalars(cs)
  {
    if cs == [] then [] else Encode(cs[0]) + EncodeAll(cs[1..])
  }

  /** The code point of the well-formed character at the front of s. */
  function FrontValue(s: Text): (c: nat)
    requires s != [] && FrontLength(s) > 0
    ensures UnicodeValid(c)
  {
    var n := FrontLength(s);
    if n == 1 then s[0]
    else if n == 2 then Value1(s[0] - 192, s[1])
    else if n == 3 then Value3(s[0] - 224, s[1], s[2])
    else Value3(Value1(s[0] - 240, s[1]), s[2], s[3])
  }

  /** Appending six bits is undone by division and remainder. */
  lemma SixBits(v: nat, b: byte)
    requires IsTail(b)
    ensures Value1(v, b) / 64 == v && Value1(v, b) % 64 == b - 128
  {
  }

  lemma SplitByte(v: nat)
    ensures v == Value1(v / 64, 128 + v % 64)
  {
  }

  lemma NestedDivision(v: nat)
    ensures v / 64 / 64 == v / 4096 && v / 4096 / 64 == v / 262144
  {
  }

  /** A two, three or four byte value is encoded by the bytes it was read from. */
  lemma EncodeTwo(a: byte, b: byte)
    requires 194 <= a < 224 && IsTail(b)
    ensures 0x80 <= Value1(a - 192, b) < 0x800 && Encode(Value1(a - 192, b)) == [a, b]
  {
    SixBits(a - 192, b);
  }

  lemma EncodeThree(a: byte, b: byte, c: byte)
    requires 224 <= a < 240 && IsTail(b) && IsTail(c) && Value3(a - 224, b, c) >= 0x800
    ensures Value3(a - 224, b, c) < 0x10000 && Encode(Value3(a - 224, b, c)) == [a, b, c]
  {
    var v := Value3(a - 224, b, c);
    NestedDivision(v);
    SixBits(a - 224, b);
    SixBits(Value1(a - 224, b), c);
  }

  lemma EncodeFour(a: byte, b: byte, c: byte, d: byte)
    requires 240 <= a < 248 && IsTail(b) && IsTail(c) && IsTail(d)
    requires 0x10000 <= Value3(Value1(a - 240, b), c, d) < 0x110000
    ensures Encode(Value3(Value1(a - 240, b), c, d)) == [a, b, c, d]
  {
    var v := Value3(Value1(a - 240, b), c, d);
    NestedDivision(v);
    SixBits(a - 240, b);
    SixBits(Value1(a - 240, b), c);
    SixBits(Value3(a - 240, b, c), d);
  }

  lemma FrontIsEncoding(s: Text)
    requires s != [] && FrontLength(s) > 0
    ensures Encode(FrontValue(s)) == s[..FrontLength(s)]
  {
    hide Value1, Value3;
    var n := FrontLength(s);
    if n == 2 {
      EncodeTwo(s[0], s[1]);
    } else if n == 3 {
      EncodeThree(s[0], s[1], s[2]);
    } else if n == 4 {
      EncodeFour(s[0], s[1], s[2], s[3]);
    }
  }

  lemma EncodedFront(c: nat, rest: Text)
    requires UnicodeValid(c)
    ensures FrontLength(Encode(c) + rest) == |Encode(c)|
  {
    var s := Encode(c) + rest;
    NestedDivision(c);
    if 0x800 <= c < 0x10000 {
      SplitByte(c);
      SplitByte(c / 64);
      assert Value3(s[0] - 224, s[1], s[2]) == c;
    } else if 0x10000 <= c {
      SplitByte(c);
      SplitByte(c / 64);
      SplitByte(c / 4096);
      assert Value3(Value1(s[0] - 240, s[1]), s[2], s[3]) == c;
    }
  }

  lemma EncodeMore(c: nat, cs: seq<nat>)
    requires UnicodeValid(c) && Scalars(cs)
    ensures Scalars([c] + cs) && EncodeAll([c] + cs) == Encode(c) + EncodeAll(cs)
  {
    assert ([c] + cs)[1..] == cs;
  }

  lemma {:induction false} WellFormedIsEncoded(s: Text)
    requires WellFormed(s)
    ensures exists cs :: Scalars(cs) && EncodeAll(cs) == s
    decreases |s|
  {
    hide FrontLength, FrontValue, Encode, UnicodeValid;
    if s == [] {
      assert EncodeAll([]) == s;
    } else {
      var n := FrontLength(s);
      WellFormedIsEncoded(s[n..]);
      var cs :| Scalars(cs) && EncodeAll(cs) == s[n..];
      FrontIsEncoding(s);
      EncodeMore(FrontValue(s), cs);
      assert s[..n] + s[n..] == s;
    }
  }

  lemma {:induction false} EncodedIsWellFormed(cs: seq<nat>)
    requires Scalars(cs)
    ensures WellFormed(EncodeAll(cs))
  {
    if cs != [] {
      var s, rest := EncodeAll(cs), EncodeAll(cs[1..]);
      EncodedFront(cs[0], rest);
      assert s[FrontLength(s)..] == rest;
      EncodedIsWellFormed(cs[1..]);
    }
  }

  /** avahi_utf8_valid accepts s exactly when s is the encoding of some acceptable code points. */
  lemma AcceptsExactlyEncodings(s: Text)
    ensures WellFormed(s) <==> exists cs :: Scalars(cs) && EncodeAll(cs) == s
  {
    if WellFormed(s) {
      WellFormedIsEncoded(s);
    }
    forall cs | Scalars(cs) && EncodeAll(cs) == s
      ensures WellFormed(s)
    {
      EncodedIsWellFormed(cs);
    }
  }
}
