/** The file information a sender puts in the subpacket after ZFILE, and its parser. */
module Metadata {
  import opened Bytes
  import opened Wire

  const MAX_SIZE: nat := 0xffff_ffff

  const NUL: byte := 0
  const SLASH: byte := 47
  const BACKSLASH: byte := 92
  const DOT: byte := 46

  // ---------------------------------------------------------------- numbers

  predicate IsDigit(v: byte) { 48 <= v <= 57 }

  function Decimal(n: nat): (d: bytes)
    ensures d != [] && forall i | 0 <= i < |d| :: IsDigit(d[i])
  {
    if n < 10 then [48 + n] else Decimal(n / 10) + [48 + n % 10]
  }

  function ParseDigits(d: bytes): Option<nat> {
    if d == [] then Some(0) else
    var high := ParseDigits(d[..|d| - 1]);
    var v := d[|d| - 1];
    if high.Some? && IsDigit(v) then Some(10 * high.value + (v - 48)) else None
  }

  lemma {:induction false} DecimalParses(n: nat)
    ensures ParseDigits(Decimal(n)) == Some(n)
  {
    if n < 10 {
      assert Decimal(n)[..0] == [];
    } else {
      DecimalParses(n / 10);
      assert Decimal(n)[..|Decimal(n)| - 1] == Decimal(n / 10);
    }
  }

  /** A signed decimal number that is a size: no more than 32 bits, not below zero. */
  function ParseSize(s: bytes): (n: Option<nat>)
    ensures n.Some? ==> n.value <= MAX_SIZE
  {
    var signed := s != [] && (s[0] == 43 || s[0] == 45);
    var digits := if signed then s[1..] else s;
    if digits == [] then None else
    var n := ParseDigits(digits);
    if n.None? || n.value > MAX_SIZE || (signed && s[0] == 45 && n.value > 0) then None else n
  }

  // ------------------------------------------------------------------ fields

  predicate IsSpace(v: byte) { 9 <= v <= 13 || v == 32 }

  function SkipSpaces(s: bytes): bytes {
    if s != [] && IsSpace(s[0]) then SkipSpaces(s[1..]) else s
  }

  function TakeWord(s: bytes): bytes {
    if s == [] || IsSpace(s[0]) then [] else [s[0]] + TakeWord(s[1..])
  }

  /** The first of the fields between white space, empty when there is none. */
  function FirstField(s: bytes): bytes { TakeWord(SkipSpaces(s)) }

  function TrimNuls(s: bytes): bytes {
    if s != [] && s[|s| - 1] == NUL then TrimNuls(s[..|s| - 1]) else s
  }

  /** Position of the first NUL, or the length. */
  function FirstNul(s: bytes): (i: nat)
    ensures i <= |s| && NUL !in s[..i] && (i < |s| ==> s[i] == NUL)
  {
    if s == [] || s[0] == NUL then 0 else 1 + FirstNul(s[1..])
  }

  predicate SafeName(name: bytes) {
    name != [] && name != [DOT] && name != [DOT, DOT]
    && SLASH !in name && BACKSLASH !in name && NUL !in name
  }

  // ---------------------------------------------------------------- metadata

  /** " 0 100600 0 1 " */
  const MODES: bytes := [32, 48, 32, 49, 48, 48, 54, 48, 48, 32, 48, 32, 49, 32]

  function Format(name: bytes, size: nat): bytes {
    name + ([NUL] + (Decimal(size) + (MODES + (Decimal(size) + [NUL]))))
  }

  /** The name and size a receiver takes from metadata; none when it refuses them. */
  function Parse(meta: bytes): (p: Option<(bytes, nat)>)
    ensures p.Some? ==> SafeName(p.value.0) && p.value.1 <= MAX_SIZE
  {
    var i := FirstNul(meta);
    if i == |meta| || !SafeName(meta[..i]) then None else
    var field := FirstField(TrimNuls(meta[i + 1..]));
    var size := ParseSize(field);
    if size.None? then None else Some((meta[..i], size.value))
  }

  lemma {:induction false} FirstNulOf(name: bytes, s: bytes)
    requires NUL !in name
    ensures FirstNul(name + ([NUL] + s)) == |name|
  {
    var whole := name + ([NUL] + s);
    if name != [] {
      assert whole[1..] == name[1..] + ([NUL] + s);
      assert whole[0] == name[0] && name[0] in name;
      FirstNulOf(name[1..], s);
    }
  }

  lemma {:induction false} WordOf(d: bytes, s: bytes)
    requires forall i | 0 <= i < |d| :: !IsSpace(d[i])
    requires s != [] && IsSpace(s[0])
    ensures TakeWord(d + s) == d
  {
    if d == [] {
      assert d + s == s;
    } else {
      assert (d + s)[1..] == d[1..] + s;
      WordOf(d[1..], s);
    }
  }

  lemma TrimOne(s: bytes)
    requires s == [] || s[|s| - 1] != NUL
    ensures TrimNuls(s + [NUL]) == s
  {
    assert (s + [NUL])[..|s|] == s;
  }

  lemma SizeFieldOf(size: nat)
    ensures FirstField(TrimNuls(Decimal(size) + (MODES + (Decimal(size) + [NUL])))) == Decimal(size)
  {
    var d := Decimal(size);
    var kept := d + (MODES + d);
    assert d + (MODES + (d + [NUL])) == kept + [NUL];
    assert kept[|kept| - 1] == d[|d| - 1] && IsDigit(d[|d| - 1]);
    TrimOne(kept);
    assert kept[0] == d[0] && IsDigit(d[0]);
    assert IsSpace((MODES + d)[0]);
    WordOf(d, MODES + d);
  }

  lemma SizeParses(size: nat)
    requires size <= MAX_SIZE
    ensures ParseSize(Decimal(size)) == Some(size)
  {
    DecimalParses(size);
    assert IsDigit(Decimal(size)[0]);
  }

  /** A receiver reads the name and the size a sender wrote, exactly when the name is safe. */
  lemma MetadataRoundTrip(name: bytes, size: nat)
    requires NUL !in name && size <= MAX_SIZE
    ensures Parse(Format(name, size)) == if SafeName(name) then Some((name, size)) else None
  {
    var body := Decimal(size) + (MODES + (Decimal(size) + [NUL]));
    var meta := Format(name, size);
    FirstNulOf(name, body);
    assert meta[..|name|] == name && meta[|name| + 1..] == body;
    SizeFieldOf(size);
    SizeParses(size);
  }

  // -------------------------------------------------------- other programs' own

  /** A name that stands for something in the directory itself, in whatever system it is. */
  predicate StaysInside(name: bytes) {
    && name != [] && name != [46] && name != [46, 46]
    && 47 !in name && 92 !in name && 0 !in name
  }

  predicate IsBlank(v: byte) { v == 32 || 9 <= v <= 13 }

  lemma {:induction false} TrimBehind(d: bytes, s: bytes)
    requires d != [] && d[|d| - 1] != 0
    ensures TrimNuls(d + s) == d + TrimNuls(s)
    decreases |s|
  {
    var all := d + s;
    if s == [] {
      assert all == d;
    } else if s[|s| - 1] == 0 {
      assert all[..|all| - 1] == d + s[..|s| - 1];
      TrimBehind(d, s[..|s| - 1]);
    } else {
      assert all[|all| - 1] == s[|s| - 1];
    }
  }

  lemma {:induction false} TrimKeepsFirst(s: bytes)
    ensures TrimNuls(s) <= s
    ensures s != [] && s[0] != 0 ==> TrimNuls(s) != [] && TrimNuls(s)[0] == s[0]
    ensures (forall v | v in s :: v == 0) ==> TrimNuls(s) == []
  {
    if s != [] && s[|s| - 1] == 0 {
      var t := s[..|s| - 1];
      assert forall v | v in t :: v in s;
      TrimKeepsFirst(t);
    } else if s != [] {
      assert s[|s| - 1] in s;
    }
  }

  lemma {:induction false} BlanksSkipped(blanks: bytes, s: bytes)
    requires (forall v | v in blanks :: IsBlank(v)) && s != [] && !IsBlank(s[0])
    ensures SkipSpaces(blanks + s) == s
  {
    if blanks == [] {
      assert blanks + s == s;
    } else {
      assert blanks[0] in blanks && forall v | v in blanks[1..] :: v in blanks;
      assert (blanks + s)[1..] == blanks[1..] + s;
      BlanksSkipped(blanks[1..], s);
    }
  }

  /** What may follow the size: other fields, or the filling of a block. */
  predicate Follows(rest: bytes) { (rest != [] ==> IsBlank(rest[0])) || forall v | v in rest :: v == 0 }

  lemma FieldOf(blanks: bytes, size: nat, rest: bytes)
    requires (forall v | v in blanks :: IsBlank(v)) && Follows(rest)
    ensures FirstField(TrimNuls(blanks + (Decimal(size) + rest))) == Decimal(size)
  {
    hide Decimal, TakeWord, SkipSpaces, TrimNuls;
    var d := Decimal(size);
    assert IsDigit(d[0]) && IsDigit(d[|d| - 1]);
    var kept := TrimNuls(rest);
    TrimKeepsFirst(rest);
    assert blanks + (d + rest) == blanks + d + rest;
    assert (blanks + d)[|blanks + d| - 1] == d[|d| - 1];
    TrimBehind(blanks + d, rest);
    assert blanks + d + kept == blanks + (d + kept);
    assert (d + kept)[0] == d[0];
    BlanksSkipped(blanks, d + kept);
    WordEnds(d, kept);
  }

  lemma WordEnds(d: bytes, s: bytes)
    requires forall i | 0 <= i < |d| :: !IsSpace(d[i])
    requires s != [] ==> IsSpace(s[0])
    ensures TakeWord(d + s) == d
  {
    if s == [] {
      WordAlone(d);
      assert d + s == d;
    } else {
      WordOf(d, s);
    }
  }

  lemma {:induction false} WordAlone(d: bytes)
    requires forall i | 0 <= i < |d| :: !IsSpace(d[i])
    ensures TakeWord(d) == d
  {
    if d != [] {
      WordAlone(d[1..]);
    }
  }

  lemma SizeIsBounded(size: nat)
    ensures ParseSize(Decimal(size)) == if size <= 0xffff_ffff then Some(size) else None
  {
    DecimalParses(size);
    assert IsDigit(Decimal(size)[0]);
  }

  /**
   Metadata as any program writes it: a name, NUL, blanks, a decimal size, and other fields or
   filling behind it. It is taken if the name stays inside the directory and the size fits 32 bits.
   */
  lemma AnyMetadata(name: bytes, blanks: bytes, size: nat, rest: bytes)
    requires 0 !in name && (forall v | v in blanks :: IsBlank(v)) && Follows(rest)
    ensures Parse(name + ([0] + (blanks + (Decimal(size) + rest))))
            == if StaysInside(name) && size <= 0xffff_ffff then Some((name, size)) else None
  {
    hide Decimal, FirstField, TrimNuls, ParseSize, FirstNul;
    var body := blanks + (Decimal(size) + rest);
    var meta := name + ([0] + body);
    FirstNulOf(name, body);
    assert meta[..|name|] == name && meta[|name| + 1..] == body;
    FieldOf(blanks, size, rest);
    SizeIsBounded(size);
  }

  /** Whatever metadata says, only such a name and such a size are taken from it. */
  lemma OnlyInside(meta: bytes)
    ensures Parse(meta).Some? ==> StaysInside(Parse(meta).value.0) && Parse(meta).value.1 <= 0xffff_ffff
  {
  }

  /** A sign is read, but a size is not below zero; anything but digits behind it is refused. */
  lemma SizesAreNumbers(s: bytes, n: nat)
    ensures ParseSize([43] + Decimal(n)) == ParseSize(Decimal(n))
    ensures ParseSize([45] + Decimal(n)) == if n == 0 then Some(0) else None
    ensures ParseSize(s).Some? ==> s != [] && forall i | 0 <= i < |s| :: 48 <= s[i] <= 57 || (i == 0 && (s[0] == 43 || s[0] == 45))
  {
    hide Decimal;
    var d := Decimal(n);
    assert IsDigit(d[0]);
    assert ([43] + d)[1..] == d && ([45] + d)[1..] == d;
    DecimalParses(n);
    if s != [] {
      DigitsOnly(s);
      DigitsOnly(s[1..]);
    }
  }

  lemma {:induction false} DigitsOnly(d: bytes)
    ensures ParseDigits(d).Some? ==> forall i | 0 <= i < |d| :: 48 <= d[i] <= 57
  {
    if d != [] {
      DigitsOnly(d[..|d| - 1]);
      assert forall i | 0 <= i < |d| - 1 :: d[..|d| - 1][i] == d[i];
    }
  }
}
