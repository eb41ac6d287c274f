/** The texts a page may hold are the encodings of sequences of characters. */
module Utf8 {
  import opened Bytes
  import opened LocalFiles

  /** A Unicode scalar value: no surrogate, and nothing above the last plane. */
  predicate IsScalar(c: nat) { c < 0xD800 || 0xE000 <= c < 0x11_0000 }

  /** Its bytes, by the table in section 3 of RFC 3629. */
  function Encode1(c: nat): (s: seq<byte>)
    requires IsScalar(c)
    ensures 1 <= |s| <= 4
  {
    if c < 0x80 then [c]
    else if c < 0x800 then [0xC0 + c / 64, 0x80 + c % 64]
    else if c < 0x1_0000 then [0xE0 + c / 4096, 0x80 + c / 64 % 64, 0x80 + c % 64]
    else [0xF0 + c / 0x4_0000, 0x80 + c / 4096 % 64, 0x80 + c / 64 % 64, 0x80 + c % 64]
  }

  predicate AreScalars(cs: seq<nat>) { forall c | c in cs :: IsScalar(c) }

  function Encode(cs: seq<nat>): seq<byte>
    requires AreScalars(cs)
  {
    if cs == [] then [] else
    assert cs[0] in cs && forall c | c in cs[1..] :: c in cs;
    Encode1(cs[0]) + Encode(cs[1..])
  }

  /** Encoded characters are characters, of that many bytes. */
  lemma EncodedHasWidth(c: nat, rest: seq<byte>)
    requires IsScalar(c)
    ensures Width(Encode1(c) + rest) == |Encode1(c)|
  {
    var s := Encode1(c) + rest;
    if c < 0x80 {
    } else if c < 0x800 {
    } else if c < 0x1_0000 {
      ThreeBytes(c);
    } else {
      FourBytes(c);
    }
  }

  lemma ThreeBytes(c: nat)
    requires 0x800 <= c < 0x1_0000 && IsScalar(c)
    ensures var (a, b) := (0xE0 + c / 4096, 0x80 + c / 64 % 64);
            && 0xE0 <= a <= 0xEF && 0x80 <= b <= 0xBF && (a == 0xE0 ==> b >= 0xA0) && (a == 0xED ==> b <= 0x9F)
  {
  }

  lemma FourBytes(c: nat)
    requires 0x1_0000 <= c < 0x11_0000
    ensures var (a, b) := (0xF0 + c / 0x4_0000, 0x80 + c / 4096 % 64);
            && 0xF0 <= a <= 0xF4 && 0x80 <= b <= 0xBF && (a == 0xF0 ==> b >= 0x90) && (a == 0xF4 ==> b <= 0x8F)
  {
  }

  /** And a character is the encoding of some scalar. */
  lemma WidthIsEncoded(s: seq<byte>) returns (c: nat)
    requires Width(s) > 0
    ensures IsScalar(c) && s[..Width(s)] == Encode1(c)
  {
    var w := Width(s);
    var a: int := s[0];
    var b: int := if w > 1 then s[1] else 0;
    var d: int := if w > 2 then s[2] else 0;
    var e: int := if w > 3 then s[3] else 0;
    if w == 1 {
      c := a;
    } else if w == 2 {
      c := (a - 0xC0) * 64 + (b - 0x80);
    } else if w == 3 {
      c := (a - 0xE0) * 4096 + (b - 0x80) * 64 + (d - 0x80);
      Digits3(a - 0xE0, b - 0x80, d - 0x80);
    } else {
      c := (a - 0xF0) * 0x4_0000 + (b - 0x80) * 4096 + (d - 0x80) * 64 + (e - 0x80);
      Digits4(a - 0xF0, b - 0x80, d - 0x80, e - 0x80);
    }
  }

  lemma Digits3(a: nat, b: nat, d: nat)
    requires b < 64 && d < 64
    ensures var c := a * 4096 + b * 64 + d; c / 4096 == a && c / 64 % 64 == b && c % 64 == d
  {
  }

  lemma Digits4(a: nat, b: nat, d: nat, e: nat)
    requires b < 64 && d < 64 && e < 64
    ensures var c := a * 0x4_0000 + b * 4096 + d * 64 + e;
            c / 0x4_0000 == a && c / 4096 % 64 == b && c / 64 % 64 == d && c % 64 == e
  {
    var high := a * 64 + b;
    Digits3(high, d, e);
    var c := high * 4096 + d * 64 + e;
    assert c == a * 0x4_0000 + b * 4096 + d * 64 + e;
    assert c - a * 0x4_0000 < 0x4_0000;
  }

  lemma {:induction false} EncodedIsValid(cs: seq<nat>)
    requires AreScalars(cs)
    ensures ValidUtf8(Encode(cs))
  {
    hide Width, Encode1;
    if cs != [] {
      assert cs[0] in cs && forall c | c in cs[1..] :: c in cs;
      EncodedHasWidth(cs[0], Encode(cs[1..]));
      EncodedIsValid(cs[1..]);
      assert Encode(cs)[|Encode1(cs[0])|..] == Encode(cs[1..]);
    }
  }

  lemma {:induction false} ValidIsEncoded(s: seq<byte>) returns (cs: seq<nat>)
    requires ValidUtf8(s)
    ensures AreScalars(cs) && Encode(cs) == s
    decreases |s|
  {
    hide Width, Encode1;
    if s == [] {
      cs := [];
    } else {
      var w := Width(s);
      var c := WidthIsEncoded(s);
      var rest := ValidIsEncoded(s[w..]);
      cs := [c] + rest;
      assert cs[1..] == rest && s == s[..w] + s[w..];
    }
  }

  ghost predicate IsEncoded(s: seq<byte>) { exists cs: seq<nat> :: AreScalars(cs) && Encode(cs) == s }

  /** A page is text exactly if it is the encoding of some characters, none of them NUL. */
  lemma TextIsEncoded(s: seq<byte>)
    ensures Text(s) <==> IsEncoded(s) && 0 !in s
  {
    hide ValidUtf8, Encode;
    if ValidUtf8(s) {
      var cs := ValidIsEncoded(s);
    }
    if IsEncoded(s) {
      var cs: seq<nat> :| AreScalars(cs) && Encode(cs) == s;
      EncodedIsValid(cs);
    }
  }
}
