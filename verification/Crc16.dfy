/**
 The frame check sequence of the ZMODEM codec: a bitwise CRC register, and the
 polynomial arithmetic over GF(2) that says what the register holds.
 */
module Crc16 {
  import opened Bytes

  /** A 16-bit register, most significant bit first; also a polynomial of degree below 16. */
  type Word = p: Bits | |p| == 16 witness Zeros(16)

  function Zeros(n: nat): (z: Bits)
    ensures |z| == n
  {
    seq(n, _ => false)
  }

  function Xor(a: Bits, b: Bits): (r: Bits)
    requires |a| == |b|
    ensures |r| == |a|
  {
    seq(|a|, i requires 0 <= i < |a| => a[i] != b[i])
  }

  /** 0x1021 */
  const TAPS: Word := [
    false, false, false, true, false, false, false, false,
    false, false, true, false, false, false, false, true]

  /** Shift left by one bit; the top bit falls out. */
  function Shl(c: Word): Word { c[1..] + [false] }

  /** One turn of the inner loop: shift, and reduce when a one fell out. */
  function Round(c: Word): Word {
    if c[0] then Xor(Shl(c), TAPS) else Shl(c)
  }

  function Rounds(c: Word, n: nat): Word {
    if n == 0 then c else Round(Rounds(c, n - 1))
  }

  /** A byte in the upper half of the register. */
  function Upper(v: byte): Word { ByteBits(v) + Zeros(8) }

  /** One turn of the outer loop. */
  function AddByte(c: Word, v: byte): Word {
    Rounds(Xor(c, Upper(v)), 8)
  }

  /** The register after a whole message, starting from `c`. */
  function CrcFrom(c: Word, m: bytes): Word {
    if m == [] then c else AddByte(CrcFrom(c, m[..|m| - 1]), m[|m| - 1])
  }

  function Crc(m: bytes): Word { CrcFrom(Zeros(16), m) }

  /** The checksum as it is written on the wire, most significant byte first. */
  function Digits(c: Word): (d: bytes)
    ensures |d| == 2
  {
    [BitsByte(c[..8]), BitsByte(c[8..])]
  }

  method CRC16(b: bytes) returns (crc: Word)
    ensures crc == Crc(b)
  {
    crc := Zeros(16);
    for k := 0 to |b|
      invariant crc == Crc(b[..k])
    {
      assert b[..k + 1][..k] == b[..k];
      crc := Xor(crc, Upper(b[k]));
      ghost var loaded := crc;
      for i := 0 to 8
        invariant crc == Rounds(loaded, i)
      {
        if crc[0] {
          crc := Xor(Shl(crc), TAPS);
        } else {
          crc := Shl(crc);
        }
      }
    }
    assert b[..|b|] == b;
  }

  // ------------------------------------------------- polynomials over GF(2)

  /** x^16 + x^12 + x^5 + 1 */
  ghost const GENERATOR: Bits := [true] + TAPS

  /** Schoolbook product of `q` with the generator, coefficients highest power first. */
  ghost function Times(q: Bits): (p: Bits)
    ensures |p| == |q| + 16
  {
    if q == [] then Zeros(16) else
    var n := |q| - 1;
    Xor(Times(q[..n]) + [false], if q[n] then Zeros(n) + GENERATOR else Zeros(n + 17))
  }

  ghost function MessageBits(m: bytes): (p: Bits)
    ensures |p| == 8 * |m|
  {
    if m == [] then [] else MessageBits(m[..|m| - 1]) + ByteBits(m[|m| - 1])
  }

  /** message * x^16 == q * generator + r for some quotient q. */
  ghost predicate IsRemainder(message: Bits, r: Word)
  {
    exists q: Bits :: |q| == |message| && Times(q) == message + r
  }

  /** What is subtracted at one place leaves the higher ones alone. */
  lemma Subtracted(a: Bits, n: nat, t: bool)
    requires |a| == n + 16
    ensures var s := if t then Zeros(n) + GENERATOR else Zeros(n + 17);
            var r := Xor(a + [false], s);
            r[..n] == a[..n] && r[n] == (a[n] != t)
  {
    var s := if t then Zeros(n) + GENERATOR else Zeros(n + 17);
    var r := Xor(a + [false], s);
    forall i | 0 <= i < n
      ensures r[i] == a[i]
    {
      assert !s[i];
    }
    assert s[n] == t;
  }

  /** The upper part of a product, one factor bit at a time. */
  lemma TimesUpper(q: Bits)
    requires q != []
    ensures var n := |q| - 1;
            Times(q)[..n] == Times(q[..n])[..n] && Times(q)[n] == (Times(q[..n])[n] != q[n])
  {
    hide Xor, Zeros;
    var n := |q| - 1;
    Subtracted(Times(q[..n]), n, q[n]);
  }

  /** Division with remainder has at most one answer. */
  lemma {:induction false} TimesInjective(p: Bits, q: Bits)
    requires |p| == |q| && Times(p)[..|p|] == Times(q)[..|q|]
    ensures p == q
  {
    hide Times;
    if p != [] {
      var n := |p| - 1;
      TimesUpper(p);
      TimesUpper(q);
      assert Times(p)[..n] == Times(p)[..n + 1][..n] && Times(q)[..n] == Times(q)[..n + 1][..n];
      TimesInjective(p[..n], q[..n]);
      assert Times(p)[n] == Times(p)[..n + 1][n] && Times(q)[n] == Times(q)[..n + 1][n];
      assert p == p[..n] + [p[n]] && q == q[..n] + [q[n]];
    }
  }

  lemma RemainderUnique(message: Bits, r: Word, s: Word)
    requires IsRemainder(message, r) && IsRemainder(message, s)
    ensures r == s
  {
    var p: Bits :| |p| == |message| && Times(p) == message + r;
    var q: Bits :| |q| == |message| && Times(q) == message + s;
    assert Times(p)[..|p|] == message == Times(q)[..|q|];
    TimesInjective(p, q);
    assert r == Times(p)[|p|..] && s == Times(q)[|q|..];
  }

  // ----------------------------------------- the register, one bit at a time

  ghost function One(b: bool): Word { [b] + Zeros(15) }

  ghost function Feed1(c: Word, b: bool): Word { Round(Xor(c, One(b))) }

  ghost function Feed(c: Word, p: Bits): Word {
    if p == [] then c else Feed1(Feed(c, p[..|p| - 1]), p[|p| - 1])
  }

  lemma {:induction false} FeedConcat(c: Word, p: Bits, q: Bits)
    ensures Feed(c, p + q) == Feed(Feed(c, p), q)
  {
    if q == [] {
      assert p + q == p;
    } else {
      var n := |q| - 1;
      assert (p + q)[..|p| + n] == p + q[..n];
      FeedConcat(c, p, q[..n]);
    }
  }

  lemma RoundXor(a: Word, b: Word)
    ensures Round(Xor(a, b)) == Xor(Round(a), Round(b))
  {
    assert Shl(Xor(a, b)) == Xor(Shl(a), Shl(b));
  }

  lemma {:induction false} RoundsXor(a: Word, b: Word, n: nat)
    ensures Rounds(Xor(a, b), n) == Xor(Rounds(a, n), Rounds(b, n))
  {
    if n > 0 {
      RoundsXor(a, b, n - 1);
      RoundXor(Rounds(a, n - 1), Rounds(b, n - 1));
    }
  }

  /** `p` loaded at the top of an otherwise empty register. */
  ghost function Loaded(p: Bits): Word
    requires |p| <= 16
  {
    p + Zeros(16 - |p|)
  }

  /** The last bit is loaded on top of the others. */
  lemma LoadedLast(c: Word, p: Bits)
    requires 0 < |p| <= 16
    ensures var n := |p| - 1;
            Xor(c, Loaded(p)) == Xor(Xor(c, Loaded(p[..n])), Zeros(n) + [p[n]] + Zeros(15 - n))
  {
  }

  lemma NothingLoaded(c: Word)
    ensures Xor(c, Loaded([])) == c
  {
  }

  lemma InFront(b: bool)
    ensures Zeros(0) + [b] + Zeros(15) == One(b)
  {
  }

  /** Loading bits ahead of time and feeding them one by one is the same. */
  lemma {:induction false} LoadedFeeds(c: Word, p: Bits)
    requires |p| <= 16
    ensures Rounds(Xor(c, Loaded(p)), |p|) == Feed(c, p)
  {
    hide Xor, Loaded, Zeros, One, Round;
    if p == [] {
      NothingLoaded(c);
    } else {
      var n := |p| - 1;
      var last := Zeros(n) + [p[n]] + Zeros(15 - n);
      LoadedLast(c, p);
      RoundsXor(Xor(c, Loaded(p[..n])), last, n);
      LoadedFeeds(c, p[..n]);
      Travels(p[n], n, n);
      InFront(p[n]);
      assert Rounds(last, n) == One(p[n]);
    }
  }

  /** A lone bit reaches the top after as many rounds as it has zeros before it. */
  lemma {:induction false} Travels(b: bool, n: nat, k: nat)
    requires k <= n <= 15
    ensures Rounds(Zeros(n) + [b] + Zeros(15 - n), k) == Zeros(n - k) + [b] + Zeros(15 - n + k)
  {
    if k > 0 {
      Travels(b, n, k - 1);
    }
  }

  lemma {:induction false} BytesFeed(c: Word, m: bytes)
    ensures CrcFrom(c, m) == Feed(c, MessageBits(m))
  {
    if m != [] {
      var n := |m| - 1;
      var v := m[n];
      BytesFeed(c, m[..n]);
      FeedConcat(c, MessageBits(m[..n]), ByteBits(v));
      assert Upper(v) == Loaded(ByteBits(v));
      LoadedFeeds(CrcFrom(c, m[..n]), ByteBits(v));
    }
  }

  // ------------------------------------------------ what the register holds

  lemma XorConcat(a: Bits, b: Bits, c: Bits, d: Bits)
    requires |a| == |c| && |b| == |d|
    ensures Xor(a + b, c + d) == Xor(a, c) + Xor(b, d)
  {
  }

  lemma Assoc(a: Bits, b: Bits, c: Bits)
    ensures (a + b) + c == a + (b + c)
  {
  }

  lemma XorZeros(a: Bits)
    ensures Xor(a, Zeros(|a|)) == a
  {
  }

  ghost function Subtrahend(t: bool): (low: Bits)
    ensures |low| == 17
  {
    if t then GENERATOR else Zeros(17)
  }

  lemma TopBit(c: Word, b: bool)
    ensures var x := Xor(c, One(b)); x[0] == (c[0] != b) && Shl(x) == c[1..] + [false]
  {
  }

  lemma XorTop(a: bool)
    ensures Xor([a], [true]) == [!a]
  {
  }

  /** One step of long division: bring down bit `b`, subtract the generator when it fits. */
  lemma BringDown(c: Word, b: bool)
    ensures [b] + Feed1(c, b)
            == Xor(c + [false], Subtrahend(c[0] != b))
  {
    hide Xor, One, Shl;
    TopBit(c, b);
    var low := c[1..] + [false];
    assert c + [false] == [c[0]] + low;
    if c[0] != b {
      XorConcat([c[0]], low, [true], TAPS);
      XorTop(c[0]);
    } else {
      XorZeros(c + [false]);
    }
  }

  lemma TimesStep(q: Bits, t: bool)
    ensures Times(q + [t]) == Xor(Times(q) + [false], Zeros(|q|) + Subtrahend(t))
  {
    assert (q + [t])[..|q|] == q;
    ZerosSum(|q|, 17);
  }

  lemma DivideStep(q: Bits, p: Bits, c: Word, b: bool)
    requires |q| == |p| && Times(q) == p + c
    ensures Times(q + [c[0] != b]) == p + ([b] + Feed1(c, b))
  {
    hide Times, Xor, Feed1;
    var low := Subtrahend(c[0] != b);
    TimesStep(q, c[0] != b);
    Assoc(p, c, [false]);
    XorConcat(p, c + [false], Zeros(|p|), low);
    XorZeros(p);
    BringDown(c, b);
  }

  lemma ZerosSum(m: nat, n: nat)
    ensures Zeros(m + n) == Zeros(m) + Zeros(n)
  {
  }

  /** Long division of p * x^16, with the quotient built one bit per step. */
  lemma {:induction false} Divide(p: Bits) returns (q: Bits)
    ensures |q| == |p| && Times(q) == p + Feed(Zeros(16), p)
  {
    q := [];
    if p != [] {
      var n := |p| - 1;
      q := Divide(p[..n]);
      var c := Feed(Zeros(16), p[..n]);
      DivideStep(q, p[..n], c, p[n]);
      Assoc(p[..n], [p[n]], Feed1(c, p[n]));
      assert p[..n] + [p[n]] == p;
      q := q + [c[0] != p[n]];
    }
  }

  /** The register holds message * x^16 modulo x^16 + x^12 + x^5 + 1, and nothing else does. */
  lemma CrcIsRemainder(m: bytes, r: Word)
    ensures Crc(m) == r <==> IsRemainder(MessageBits(m), r)
  {
    var q := Divide(MessageBits(m));
    BytesFeed(Zeros(16), m);
    assert IsRemainder(MessageBits(m), Crc(m));
    if IsRemainder(MessageBits(m), r) {
      RemainderUnique(MessageBits(m), Crc(m), r);
    }
  }

  // ------------------------------------------------------- error detection

  ghost predicate XorOf(d: bytes, a: bytes, b: bytes)
  {
    |d| == |a| == |b|
    && forall i | 0 <= i < |d| :: ByteBits(d[i]) == Xor(ByteBits(a[i]), ByteBits(b[i]))
  }

  lemma AddByteXor(c: Word, e: Word, d: byte, a: byte, b: byte)
    requires ByteBits(d) == Xor(ByteBits(a), ByteBits(b))
    ensures AddByte(Xor(c, e), d) == Xor(AddByte(c, a), AddByte(e, b))
  {
    assert Upper(d) == Xor(Upper(a), Upper(b));
    assert Xor(Xor(c, e), Upper(d)) == Xor(Xor(c, Upper(a)), Xor(e, Upper(b)));
    RoundsXor(Xor(c, Upper(a)), Xor(e, Upper(b)), 8);
  }

  /** The checksum of a difference is the difference of the checksums. */
  lemma {:induction false} CrcLinear(d: bytes, a: bytes, b: bytes)
    requires XorOf(d, a, b)
    ensures Crc(d) == Xor(Crc(a), Crc(b))
  {
    if d == [] {
      assert Zeros(16) == Xor(Zeros(16), Zeros(16));
    } else {
      var n := |d| - 1;
      CrcLinear(d[..n], a[..n], b[..n]);
      AddByteXor(Crc(a[..n]), Crc(b[..n]), d[n], a[n], b[n]);
    }
  }

  lemma {:induction false} RoundsShift(p: Bits, n: nat)
    requires n <= 8 && |p| == 8
    ensures Rounds(Zeros(8) + p, n) == Zeros(8 - n) + p + Zeros(n)
  {
    if n > 0 {
      RoundsShift(p, n - 1);
    } else {
      assert Zeros(8) + p + Zeros(0) == Zeros(8) + p;
    }
  }

  lemma CancelUpper(c: Word)
    ensures AddByte(c, BitsByte(c[..8])) == c[8..] + Zeros(8)
  {
    ToFromBits(c[..8]);
    assert Xor(c, Upper(BitsByte(c[..8]))) == Zeros(8) + c[8..];
    RoundsShift(c[8..], 8);
    assert Zeros(0) + c[8..] + Zeros(8) == c[8..] + Zeros(8);
  }

  lemma CrcFromTwo(c: Word, x: byte, y: byte)
    ensures CrcFrom(c, [x, y]) == AddByte(AddByte(c, x), y)
  {
    var m := [x, y];
    assert m[..1] == [x];
    assert CrcFrom(c, [x]) == AddByte(CrcFrom(c, [x][..0]), x);
  }

  /** A message followed by its own checksum checks to zero. */
  lemma CrcSelfCheck(m: bytes)
    ensures Crc(m + Digits(Crc(m))) == Zeros(16)
  {
    var c := Crc(m);
    CrcFromConcat(Zeros(16), m, Digits(c));
    CrcFromTwo(c, Digits(c)[0], Digits(c)[1]);
    CancelUpper(c);
    var e: Word := c[8..] + Zeros(8);
    assert e[..8] == c[8..] && e[8..] == Zeros(8);
    CancelUpper(e);
    assert e[8..] + Zeros(8) == Zeros(16);
  }

  lemma RoundInjective(a: Word, b: Word)
    requires Round(a) == Round(b)
    ensures a == b
  {
    assert Round(a)[15] == a[0] && Round(b)[15] == b[0];
    forall i | 1 <= i < 16
      ensures a[i] == b[i]
    {
      assert Round(a)[i - 1] == (a[i] != (a[0] && TAPS[i - 1]));
      assert Round(b)[i - 1] == (b[i] != (b[0] && TAPS[i - 1]));
    }
  }

  lemma {:induction false} RoundsInjective(a: Word, b: Word, n: nat)
    requires Rounds(a, n) == Rounds(b, n)
    ensures a == b
  {
    if n > 0 {
      RoundInjective(Rounds(a, n - 1), Rounds(b, n - 1));
      RoundsInjective(a, b, n - 1);
    }
  }

  lemma XorInjective(a: Bits, b: Bits, c: Bits)
    requires |a| == |b| == |c| && Xor(a, c) == Xor(b, c)
    ensures a == b
  {
    assert forall i | 0 <= i < |a| :: Xor(a, c)[i] == (a[i] != c[i]) && Xor(b, c)[i] == (b[i] != c[i]);
  }

  /** Equal endings cannot repair a register that has gone astray. */
  lemma {:induction false} TailKeepsDifference(c: Word, e: Word, m: bytes)
    requires CrcFrom(c, m) == CrcFrom(e, m)
    ensures c == e
  {
    if m != [] {
      var n := |m| - 1;
      var x, y := CrcFrom(c, m[..n]), CrcFrom(e, m[..n]);
      RoundsInjective(Xor(x, Upper(m[n])), Xor(y, Upper(m[n])), 8);
      XorInjective(x, y, Upper(m[n]));
      TailKeepsDifference(c, e, m[..n]);
    }
  }

  lemma {:induction false} CrcFromConcat(c: Word, p: bytes, q: bytes)
    ensures CrcFrom(c, p + q) == CrcFrom(CrcFrom(c, p), q)
  {
    if q == [] {
      assert p + q == p;
    } else {
      var n := |q| - 1;
      assert (p + q)[..|p| + n] == p + q[..n];
      CrcFromConcat(c, p, q[..n]);
    }
  }

  /** Two bytes fill the register: the checksum tells any two of them apart. */
  lemma {:induction false} TwoBytesDiffer(c: Word, a0: byte, a1: byte, b0: byte, b1: byte)
    requires CrcFrom(c, [a0, a1]) == CrcFrom(c, [b0, b1])
    ensures a0 == b0 && a1 == b1
  {
    assert [a0, a1][..1] == [a0] && [b0, b1][..1] == [b0];
    var a, b := [a0, a1], [b0, b1];
    BytesFeed(c, a);
    BytesFeed(c, b);
    assert a[..1] == [a0] && b[..1] == [b0];
    assert MessageBits(a) == ByteBits(a0) + ByteBits(a1) by {
      assert [a0][..0] == [];
      assert MessageBits([a0]) == ByteBits(a0);
    }
    assert MessageBits(b) == ByteBits(b0) + ByteBits(b1) by {
      assert [b0][..0] == [];
      assert MessageBits([b0]) == ByteBits(b0);
    }
    var p, q := MessageBits(a), MessageBits(b);
    LoadedFeeds(c, p);
    LoadedFeeds(c, q);
    RoundsInjective(Xor(c, Loaded(p)), Xor(c, Loaded(q)), 16);
    assert Xor(c, Loaded(p)) == Xor(Loaded(p), c) && Xor(c, Loaded(q)) == Xor(Loaded(q), c);
    XorInjective(Loaded(p), Loaded(q), c);
    assert Loaded(p) == p && Loaded(q) == q;
    assert p[..8] == ByteBits(a0) && p[8..] == ByteBits(a1);
    assert q[..8] == ByteBits(b0) && q[8..] == ByteBits(b1);
    SameBits(a0, b0);
    SameBits(a1, b1);
  }

  lemma SameBits(a: byte, b: byte)
    requires ByteBits(a) == ByteBits(b)
    ensures a == b
  {
    assert Pow2(8) == 256;
    FromToBits(a, 8);
    FromToBits(b, 8);
  }

  lemma BurstInPlace(p: bytes, a: bytes, b: bytes, s: bytes)
    requires |a| == |b| <= 2 && Crc(p + a + s) == Crc(p + b + s)
    ensures a == b
  {
    var c := Crc(p);
    CrcFromConcat(Zeros(16), p, a);
    CrcFromConcat(Zeros(16), p, b);
    CrcFromConcat(Zeros(16), p + a, s);
    CrcFromConcat(Zeros(16), p + b, s);
    TailKeepsDifference(CrcFrom(c, a), CrcFrom(c, b), s);
    if |a| == 1 {
      CrcFromConcat(c, a, [0]);
      CrcFromConcat(c, b, [0]);
      assert a + [0] == [a[0], 0] && b + [0] == [b[0], 0];
      TwoBytesDiffer(c, a[0], 0, b[0], 0);
    } else if |a| == 2 {
      assert a == [a[0], a[1]] && b == [b[0], b[1]];
      TwoBytesDiffer(c, a[0], a[1], b[0], b[1]);
    }
  }

  /** Any damage confined to two adjacent bytes changes the checksum. */
  lemma BurstDetected(a: bytes, b: bytes, at: nat)
    requires |a| == |b|
    requires forall i | 0 <= i < |a| && i != at && i != at + 1 :: a[i] == b[i]
    ensures Crc(a) == Crc(b) <==> a == b
  {
    if Crc(a) == Crc(b) && at < |a| {
      var end := if at + 2 <= |a| then at + 2 else |a|;
      assert a == a[..at] + a[at..end] + a[end..];
      assert b[..at] == a[..at] && b[end..] == a[end..];
      assert b == a[..at] + b[at..end] + a[end..];
      BurstInPlace(a[..at], a[at..end], b[at..end], a[end..]);
    }
  }
}
