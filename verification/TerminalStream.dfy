/** The splitter between terminal text and protocol frames on one channel. */
module TerminalStream {
  import opened Bytes
  import opened Crc16
  import opened Wire
  import opened RoundTrip

  /** How many of the bytes after an opening header a transfer reads. */
  type Transfers = (Header, bytes) -> nat

  function Drop(s: bytes, n: nat): (r: bytes)
    ensures |r| <= |s|
  {
    if n <= |s| then s[n..] else []
  }

  // ----------------------------------------------------- what is displayed

  predicate MagicAt(s: bytes, i: nat) { i + 4 <= |s| && s[i..i + 4] == MAGIC }

  /** Leftmost occurrence of the magic that opens a hex header. */
  function FindMagic(s: bytes): (i: Option<nat>)
    ensures i.Some? ==> MagicAt(s, i.value) && forall j: nat | j < i.value :: !MagicAt(s, j)
    ensures i.None? ==> forall j: nat :: !MagicAt(s, j)
  {
    if |s| < 4 then None
    else if MagicAt(s, 0) then Some(0)
    else
      var i := FindMagic(s[1..]);
      assert forall j: nat | j > 0 :: MagicAt(s, j) ==> MagicAt(s[1..], j - 1) by { MagicShift(s); }
      if i.Some? then Some(i.value + 1) else None
  }

  lemma MagicShift(s: bytes)
    requires s != []
    ensures forall j: nat | j > 0 :: MagicAt(s, j) ==> MagicAt(s[1..], j - 1)
  {
    forall j: nat | j > 0 && MagicAt(s, j)
      ensures MagicAt(s[1..], j - 1)
    {
      assert s[1..][j - 1..j + 3] == s[j..j + 4];
    }
  }

  /** A hex header whose digits and checksum are good. */
  function Candidate(raw: bytes): Option<Header>
    requires |raw| == 14
  {
    var d := HexDecode(raw);
    if d.Some? && Digits(Crc(d.value[..5])) == d.value[5..]
    then Some(Header(d.value[0], d.value[1..5], false)) else None
  }

  predicate IsLineEnd(v: byte) { v == CR || v % 128 == LF }

  /** Up to `n` line-end bytes are taken; none when the stream ends first. */
  function LineEnds(s: bytes, n: nat): (r: Option<bytes>)
    ensures r.Some? ==> |r.value| <= |s|
  {
    if n == 0 then Some(s)
    else if s == [] then None
    else if IsLineEnd(s[0]) then LineEnds(s[1..], n - 1)
    else Some(s)
  }

  predicate OpensTransfer(h: Header) { h.kind == ZRQINIT || h.kind == ZRINIT }

  /** What remains for the terminal after an accepted header. */
  function AfterHeader(eats: Transfers, h: Header, s: bytes): (r: Option<bytes>)
    ensures r.Some? ==> |r.value| <= |s|
  {
    var r := LineEnds(s, 2);
    if r.Some? && OpensTransfer(h) then Some(Drop(r.value, eats(h, r.value))) else r
  }

  /** The bytes a stream puts on the terminal. */
  function Shown(eats: Transfers, s: bytes): bytes
    decreases |s|, 1
  {
    var at := FindMagic(s);
    if at.None? then s else s[..at.value] + FromMagic(eats, s[at.value..])
  }

  /** The same for a stream that begins with the magic. */
  function FromMagic(eats: Transfers, m: bytes): bytes
    decreases |m|, 0
  {
    if |m| < 18 then [] else
    var h := Candidate(m[4..18]);
    if h.None? then m[..18] + Shown(eats, m[18..]) else
    var r := AfterHeader(eats, h.value, m[18..]);
    if r.None? then [] else Shown(eats, r.value)
  }

  // ------------------------------------------------------------ conservation

  /** Every magic that is matched is complete and turns out not to open a header. */
  predicate OnlyText(s: bytes)
    decreases |s|
  {
    var at := FindMagic(s);
    at.None? || (|s| >= at.value + 18 && Candidate(s[at.value..][4..18]).None?
                 && OnlyText(s[at.value..][18..]))
  }

  lemma {:induction false} NeverMore(eats: Transfers, s: bytes)
    ensures |Shown(eats, s)| <= |s|
    decreases |s|, 1
  {
    var at := FindMagic(s);
    if at.Some? {
      NeverMoreFrom(eats, s[at.value..]);
    }
  }

  lemma {:induction false} NeverMoreFrom(eats: Transfers, m: bytes)
    requires MAGIC <= m
    ensures |FromMagic(eats, m)| <= |m|
    ensures |m| < 18 || Candidate(m[4..18]).Some? ==> |FromMagic(eats, m)| < |m|
    decreases |m|, 0
  {
    if |m| >= 18 {
      var h := Candidate(m[4..18]);
      if h.None? {
        NeverMore(eats, m[18..]);
      } else {
        var r := AfterHeader(eats, h.value, m[18..]);
        if r.Some? {
          NeverMore(eats, r.value);
        }
      }
    }
  }

  /** The terminal gets exactly the stream when there is nothing but text in it, and only then. */
  lemma {:induction false} Conserved(eats: Transfers, s: bytes)
    ensures Shown(eats, s) == s <==> OnlyText(s)
    decreases |s|
  {
    var at := FindMagic(s);
    if at.Some? {
      var i, m := at.value, s[at.value..];
      assert MAGIC <= m;
      NeverMoreFrom(eats, m);
      assert s == s[..i] + m;
      SameFront(s[..i], FromMagic(eats, m), m);
      if |m| >= 18 && Candidate(m[4..18]).None? {
        Conserved(eats, m[18..]);
        assert m == m[..18] + m[18..];
        SameFront(m[..18], Shown(eats, m[18..]), m[18..]);
      }
    }
  }

  lemma SameFront(p: bytes, a: bytes, b: bytes)
    ensures p + a == p + b <==> a == b
  {
    if p + a == p + b {
      assert a == (p + a)[|p|..] && b == (p + b)[|p|..];
    }
  }

  /** A magic at `i` is complete and does not open a header. */
  predicate NotOpening(s: bytes, i: nat) {
    MagicAt(s, i) ==> i + 18 <= |s| && Candidate(s[i + 4..i + 18]).None?
  }

  /** A condition on the stream alone, without following the matcher, is enough. */
  lemma {:induction false} NoOpeningIsText(s: bytes)
    requires forall i: nat :: NotOpening(s, i)
    ensures OnlyText(s)
    decreases |s|
  {
    hide FindMagic, MagicAt, Candidate;
    var at := FindMagic(s);
    if at.Some? {
      var k := at.value;
      assert NotOpening(s, k);
      SliceBehind(s, k, 4, 18);
      assert s[k..][18..] == s[k + 18..];
      var rest := s[k + 18..];
      forall i: nat
        ensures NotOpening(rest, i)
      {
        NotOpeningBehind(s, k + 18, i);
      }
      NoOpeningIsText(rest);
    }
  }

  lemma SliceBehind(s: bytes, k: nat, lo: nat, hi: nat)
    requires lo <= hi && k + hi <= |s|
    ensures s[k..][lo..hi] == s[k + lo..k + hi]
  {
  }

  lemma NotOpeningBehind(s: bytes, k: nat, i: nat)
    requires k <= |s| && NotOpening(s, k + i)
    ensures NotOpening(s[k..], i)
  {
    hide Candidate;
    if k + i + 4 <= |s| {
      SliceBehind(s, k, i, i + 4);
    }
    if k + i + 18 <= |s| {
      SliceBehind(s, k, i + 4, i + 18);
    }
  }

  /** `a` can be had from `b` by leaving bytes out. */
  ghost predicate Subsequence(a: bytes, b: bytes) {
    a == [] || (b != [] && ((a[0] == b[0] && Subsequence(a[1..], b[1..])) || Subsequence(a, b[1..])))
  }

  lemma {:induction false} SubsequenceOfLonger(a: bytes, x: bytes, b: bytes)
    requires Subsequence(a, b)
    ensures Subsequence(a, x + b)
  {
    if x == [] {
      assert x + b == b;
    } else {
      assert (x + b)[1..] == x[1..] + b;
      SubsequenceOfLonger(a, x[1..], b);
    }
  }

  lemma {:induction false} SubsequencePrefix(p: bytes, a: bytes, b: bytes)
    requires Subsequence(a, b)
    ensures Subsequence(p + a, p + b)
  {
    if p == [] {
      assert p + a == a && p + b == b;
    } else {
      assert (p + a)[1..] == p[1..] + a && (p + b)[1..] == p[1..] + b;
      SubsequencePrefix(p[1..], a, b);
    }
  }

  lemma EmptySubsequence(b: bytes)
    ensures Subsequence([], b) && Subsequence([], [])
  {
  }

  /** Whatever transfers read, the terminal never gets a byte that was not sent, nor out of order. */
  lemma {:induction false} NothingInvented(eats: Transfers, s: bytes)
    ensures Subsequence(Shown(eats, s), s)
    decreases |s|, 1
  {
    hide FindMagic, FromMagic, Subsequence;
    EmptySubsequence(s);
    var at := FindMagic(s);
    if at.None? {
      SubsequencePrefix(s, [], []);
      assert s + [] == s;
    } else {
      var m := s[at.value..];
      NothingInventedFrom(eats, m);
      SubsequencePrefix(s[..at.value], FromMagic(eats, m), m);
      assert s == s[..at.value] + m;
    }
  }

  lemma {:induction false} NothingInventedFrom(eats: Transfers, m: bytes)
    ensures Subsequence(FromMagic(eats, m), m)
    decreases |m|, 0
  {
    hide Shown, Candidate, AfterHeader, Subsequence;
    EmptySubsequence(m);
    if |m| >= 18 {
      var h := Candidate(m[4..18]);
      assert m == m[..18] + m[18..];
      if h.None? {
        NothingInvented(eats, m[18..]);
        SubsequencePrefix(m[..18], Shown(eats, m[18..]), m[18..]);
      } else if AfterHeader(eats, h.value, m[18..]).Some? {
        var left := AfterHeader(eats, h.value, m[18..]).value;
        NothingInvented(eats, left);
        var x := SuffixAfter(eats, h.value, m[18..]);
        assert m == (m[..18] + x) + left;
        SubsequenceOfLonger(Shown(eats, left), m[..18] + x, left);
      }
    }
  }

  lemma {:induction false} LineEndsSuffix(s: bytes, n: nat) returns (x: bytes)
    requires LineEnds(s, n).Some?
    ensures s == x + LineEnds(s, n).value
  {
    if n == 0 || !IsLineEnd(s[0]) {
      x := [];
    } else {
      var y := LineEndsSuffix(s[1..], n - 1);
      x := [s[0]] + y;
      assert s == [s[0]] + s[1..];
    }
  }

  lemma SuffixAfter(eats: Transfers, h: Header, s: bytes) returns (x: bytes)
    requires AfterHeader(eats, h, s).Some?
    ensures s == x + AfterHeader(eats, h, s).value
  {
    x := LineEndsSuffix(s, 2);
    var r := LineEnds(s, 2).value;
    var left := AfterHeader(eats, h, s).value;
    x := x + r[..|r| - |left|];
  }

  // ----------------------------------------------------- finding byte by byte

  lemma FindStep(s: bytes)
    requires s != [] && !MagicAt(s, 0)
    ensures FindMagic(s) == var i := FindMagic(s[1..]); if i.Some? then Some(i.value + 1) else None
  {
  }

  /** A byte where no magic starts goes to the terminal. */
  lemma SkipOne(eats: Transfers, s: bytes)
    requires s != [] && !MagicAt(s, 0)
    ensures Shown(eats, s) == [s[0]] + Shown(eats, s[1..])
  {
    hide FindMagic, FromMagic, MagicAt;
    FindStep(s);
    var next := FindMagic(s[1..]);
    if next.Some? {
      var i := next.value;
      FoundInside(s[1..]);
      assert s[i + 1..] == s[1..][i..];
      assert s[..i + 1] == [s[0]] + s[1..][..i];
    }
  }

  lemma FoundInside(s: bytes)
    ensures FindMagic(s).Some? ==> FindMagic(s).value <= |s|
  {
  }

  lemma NotMagic(left: bytes, rest: bytes)
    requires left != [] && !(left <= MAGIC) && |left| <= 4
    ensures !MagicAt(left + rest, 0)
  {
    assert |left + rest| >= 4 ==> (left + rest)[0..4][..|left|] == left;
  }

  lemma ShortIsText(eats: Transfers, s: bytes)
    requires |s| < 4
    ensures Shown(eats, s) == s
  {
  }

  lemma FindAtFront(after: bytes)
    ensures FindMagic(MAGIC + after) == Some(0)
  {
    assert (MAGIC + after)[0..4] == MAGIC;
  }

  /** What becomes of a magic at the front of the stream. */
  lemma MagicFirst(eats: Transfers, after: bytes)
    ensures |after| < 14 ==> Shown(eats, MAGIC + after) == []
    ensures |after| >= 14 ==>
              var h := Candidate(after[..14]);
              if h.None? then Shown(eats, MAGIC + after) == MAGIC + after[..14] + Shown(eats, after[14..])
              else var r := AfterHeader(eats, h.value, after[14..]);
                   Shown(eats, MAGIC + after) == if r.None? then [] else Shown(eats, r.value)
  {
    hide Shown, FromMagic, Candidate, AfterHeader, FindMagic, MagicAt;
    var s := MAGIC + after;
    assert |s| == 4 + |after|;
    FindAtFront(after);
    FrontIsFromMagic(eats, s);
    FromMagicIs(eats, s);
    if |after| >= 14 {
      BehindMagic(eats, after, s);
    }
  }

  lemma BehindMagic(eats: Transfers, after: bytes, s: bytes)
    requires s == MAGIC + after && |after| >= 14
    requires var h := Candidate(s[4..18]);
             Shown(eats, s) == if h.None? then s[..18] + Shown(eats, s[18..])
                               else
                                 var r := AfterHeader(eats, h.value, s[18..]);
                                 if r.None? then [] else Shown(eats, r.value)
    ensures var h := Candidate(after[..14]);
            Shown(eats, s) == if h.None? then MAGIC + after[..14] + Shown(eats, after[14..])
                              else
                                var r := AfterHeader(eats, h.value, after[14..]);
                                if r.None? then [] else Shown(eats, r.value)
  {
    hide Shown, FromMagic, Candidate, AfterHeader, FindMagic, MagicAt;
    SlicesBehindMagic(after);
  }

  lemma SlicesBehindMagic(after: bytes)
    requires |after| >= 14
    ensures var s := MAGIC + after;
            s[4..18] == after[..14] && s[18..] == after[14..] && s[..18] == MAGIC + after[..14]
  {
  }

  lemma FrontIsFromMagic(eats: Transfers, s: bytes)
    requires FindMagic(s) == Some(0)
    ensures MAGIC <= s && Shown(eats, s) == FromMagic(eats, s)
  {
    hide FindMagic, FromMagic;
    assert s[0..] == s && s[..0] == [];
    assert [] + FromMagic(eats, s) == FromMagic(eats, s);
  }

  lemma FromMagicIs(eats: Transfers, m: bytes)
    ensures |m| < 18 ==> FromMagic(eats, m) == []
    ensures |m| >= 18 ==>
              var h := Candidate(m[4..18]);
              FromMagic(eats, m) == if h.None? then m[..18] + Shown(eats, m[18..])
                                    else
                                      var r := AfterHeader(eats, h.value, m[18..]);
                                      if r.None? then [] else Shown(eats, r.value)
  {
    hide FindMagic, Shown, Candidate, AfterHeader;
  }

  /** A header as the codec writes it is a good candidate. */
  lemma WrittenCandidate(h: Header)
    ensures Candidate(HexEncode(RawHeader(h))) == Some(Narrow(h))
  {
    var raw := RawHeader(h);
    HexRoundTrip(raw);
    var body := [h.kind] + h.data;
    assert raw[..5] == body && raw[5..] == Digits(Crc(body)) && raw[1..5] == h.data;
  }

  lemma FirstMagic(s: bytes, i: nat)
    requires MagicAt(s, i) && forall j: nat | j < i :: !MagicAt(s, j)
    ensures FindMagic(s) == Some(i)
  {
    hide FindMagic, MagicAt;
    assert FindMagic(s).Some?;
  }

  /** No magic begins in a text and ends in a magic behind it. */
  lemma NoStraddle(text: bytes, after: bytes, j: nat)
    requires MAGIC <= after && j < |text| && MagicAt(text + after, j)
    ensures MagicAt(text, j)
  {
    var s := text + after;
    assert s[j..j + 4][0] == s[j] && s[j..j + 4][1] == s[j + 1] && s[j..j + 4][2] == s[j + 2] && s[j..j + 4][3] == s[j + 3];
    assert after[0] == STAR && after[1] == STAR;
    assert j + 4 <= |text|;
    assert s[j..j + 4] == text[j..j + 4];
  }

  /** Text in front of a magic is displayed, whatever the magic leads to. */
  lemma {:induction false} TextShown(eats: Transfers, text: bytes, after: bytes)
    requires OnlyText(text) && MAGIC <= after
    ensures Shown(eats, text + after) == text + Shown(eats, after)
    decreases |text|
  {
    hide MagicAt, Candidate, FindMagic, Shown, FromMagic;
    var at := FindMagic(text);
    if at.None? {
      FrontOfMagic(eats, text, after);
    } else {
      var i := at.value;
      var m := text[i..];
      TextShown(eats, m[18..], after);
      RejectedInFront(eats, text, after, i);
      assert text == text[..i] + m && m == m[..18] + m[18..];
      Apart(text[..i], m[..18], m[18..], Shown(eats, after));
    }
  }

  lemma Apart(a: bytes, b: bytes, c: bytes, d: bytes)
    ensures a + (b + (c + d)) == a + (b + c) + d
  {
  }

  /** No magic begins before the one behind a text that has none. */
  lemma FrontOfMagic(eats: Transfers, text: bytes, after: bytes)
    requires FindMagic(text).None? && MAGIC <= after
    ensures Shown(eats, text + after) == text + Shown(eats, after)
  {
    hide MagicAt, FindMagic, FromMagic;
    var s := text + after;
    forall j: nat | j < |text|
      ensures !MagicAt(s, j)
    {
      if MagicAt(s, j) {
        NoStraddle(text, after, j);
      }
    }
    MagicBehind(text, after);
    FirstMagic(s, |text|);
    assert s[..|text|] == text && s[|text|..] == after;
    ShownFromMagic(eats, after);
  }

  lemma RejectedInFront(eats: Transfers, text: bytes, after: bytes, i: nat)
    requires FindMagic(text) == Some(i) && MAGIC <= after && |text| >= i + 18 && Candidate(text[i..][4..18]).None?
    ensures Shown(eats, text + after) == text[..i] + (text[i..][..18] + Shown(eats, text[i..][18..] + after))
  {
    hide MagicAt, FindMagic, FromMagic, Candidate;
    var s := text + after;
    forall j: nat | j < i
      ensures !MagicAt(s, j)
    {
      if MagicAt(s, j) {
        NoStraddle(text, after, j);
      }
    }
    MagicStays(text, after, i);
    FirstMagic(s, i);
    FoundIsPrefix(text, i);
    Rejected(eats, text[i..], after);
    assert s[..i] == text[..i] && s[i..] == text[i..] + after;
  }

  lemma FoundIsPrefix(text: bytes, i: nat)
    requires FindMagic(text) == Some(i)
    ensures i + 4 <= |text| && MAGIC <= text[i..]
  {
    hide FindMagic;
    SliceBehind(text, i, 0, 4);
    BeginsWithMagic(text[i..]);
  }

  lemma BeginsWithMagic(t: bytes)
    requires |t| >= 4 && t[0..4] == MAGIC
    ensures MAGIC <= t
  {
    assert t[..4] == t[0..4];
  }

  lemma Rejected(eats: Transfers, m: bytes, after: bytes)
    requires |m| >= 18 && MAGIC <= m && Candidate(m[4..18]).None?
    ensures FromMagic(eats, m + after) == m[..18] + Shown(eats, m[18..] + after)
  {
    hide Candidate, Shown;
    assert (m + after)[4..18] == m[4..18] && (m + after)[18..] == m[18..] + after && (m + after)[..18] == m[..18];
  }

  lemma MagicBehind(text: bytes, after: bytes)
    requires MAGIC <= after
    ensures MagicAt(text + after, |text|)
  {
    assert (text + after)[|text|..|text| + 4] == after[..4];
  }

  lemma MagicStays(text: bytes, after: bytes, i: nat)
    requires MagicAt(text, i)
    ensures MagicAt(text + after, i)
  {
    assert (text + after)[i..i + 4] == text[i..i + 4];
  }

  lemma ShownFromMagic(eats: Transfers, after: bytes)
    requires MAGIC <= after
    ensures Shown(eats, after) == FromMagic(eats, after)
  {
    assert [] + after == after;
    MagicBehind([], after);
    FirstMagic(after, 0);
    assert after[..0] == [] && after[0..] == after;
  }

  /** The stream of a terminal on which a transfer is opened, takes place and ends. */
  function Interleaved(text: bytes, h: Header, session: bytes, later: bytes): bytes {
    text + (EncodeHeader(h) + (session + later))
  }

  /**
   A transfer that reads its own bytes and no more leaves no trace on the terminal; the
   transfers of the program are shown to do so for a session that comes to its end.
   */
  lemma TransferHidden(eats: Transfers, text: bytes, h: Header, session: bytes, later: bytes)
    requires OnlyText(text) && OpensTransfer(h)
    requires eats(Narrow(h), [XON] + session + later) == 1 + |session|
    ensures Shown(eats, Interleaved(text, h, session, later)) == text + Shown(eats, later)
  {
    hide Shown, OnlyText, EncodeHeader, Candidate, FromMagic, FindMagic, MagicAt, HexEncode, RawHeader, AfterHeader, Drop;
    HeaderBytes(h);
    var rest := [XON] + session + later;
    var hex := HexEncode(RawHeader(h));
    var after := hex + ([CR, LF] + rest);
    assert EncodeHeader(h) + (session + later) == MAGIC + after;
    TextShown(eats, text, MAGIC + after);
    MagicFirst(eats, after);
    assert |hex| == 14 && after[..14] == hex && after[14..] == [CR, LF] + rest;
    WrittenCandidate(h);
    TransferTakes(eats, h, session, later);
  }

  lemma TransferTakes(eats: Transfers, h: Header, session: bytes, later: bytes)
    requires OpensTransfer(h) && eats(Narrow(h), [XON] + session + later) == 1 + |session|
    ensures AfterHeader(eats, Narrow(h), [CR, LF] + ([XON] + session + later)) == Some(later)
  {
    hide LineEnds;
    var rest := [XON] + session + later;
    LineEndTaken(rest);
    assert rest[1 + |session|..] == later;
  }

  lemma HeaderBytes(h: Header)
    requires OpensTransfer(h)
    ensures EncodeHeader(h) == MAGIC + HexEncode(RawHeader(h)) + [CR, LF, XON]
  {
    hide HexEncode, RawHeader;
  }

  lemma LineEndTaken(rest: bytes)
    ensures LineEnds([CR, LF] + rest, 2) == Some(rest)
  {
    var s := [CR, LF] + rest;
    assert s[1..] == [LF] + rest;
    assert s[1..][1..] == rest;
    assert LineEnds(s[1..][1..], 0) == Some(rest);
  }

  /** What is taken for a header: seven bytes in hexadecimal, the last two of them the right checksum. */
  lemma CandidateIs(raw: bytes, b: bytes)
    requires |raw| == 14
    ensures |b| == 7 ==>
              Candidate(HexEncode(b))
              == if Digits(Crc(b[..5])) == b[5..] then Some(Header(b[0], b[1..5], false)) else None
    ensures (exists i :: 0 <= i < 14 && !(48 <= raw[i] < 58 || 97 <= raw[i] < 103 || 65 <= raw[i] < 71)) ==>
              Candidate(raw).None?
  {
    hide Crc;
    HexRoundTrip(b);
    DigitsDecode(raw);
  }

  lemma {:induction false} DigitsDecode(raw: bytes)
    requires |raw| % 2 == 0
    ensures HexDecode(raw).Some? ==>
              forall i | 0 <= i < |raw| :: 48 <= raw[i] < 58 || 97 <= raw[i] < 103 || 65 <= raw[i] < 71
  {
    if raw != [] {
      var rest := raw[2..];
      DigitsDecode(rest);
      HexDigitsAre(raw[0]);
      HexDigitsAre(raw[1]);
      assert forall i | 2 <= i < |raw| :: raw[i] == rest[i - 2];
    }
  }

  lemma AnyLineEndTaken(newline: byte, rest: bytes)
    requires newline == 10 || newline == 138
    ensures LineEnds([13, newline] + rest, 2) == Some(rest)
  {
    var s := [13, newline] + rest;
    assert s[1..] == [newline] + rest;
    assert s[1..][1..] == rest;
    assert LineEnds(s[1..][1..], 0) == Some(rest);
  }

  /**
   Any good header behind text: only those of type 0 and 1 start a transfer, which is given all that
   follows; any other is passed over, and no transfer sees anything of the stream.
   */
  lemma HeaderIsTaken(eats: Transfers, text: bytes, h: Header, newline: byte, later: bytes)
    requires OnlyText(text) && (newline == 10 || newline == 138)
    ensures Shown(eats, text + (MAGIC + (HexEncode(RawHeader(h)) + ([13, newline] + later))))
            == text + Shown(eats, if h.kind == 0 || h.kind == 1 then Drop(later, eats(Narrow(h), later)) else later)
  {
    hide Shown, OnlyText, Candidate, FromMagic, FindMagic, MagicAt, HexEncode, RawHeader, Drop, LineEnds;
    var hex := HexEncode(RawHeader(h));
    var after := hex + ([13, newline] + later);
    TextShown(eats, text, MAGIC + after);
    MagicFirst(eats, after);
    assert |hex| == 14 && after[..14] == hex && after[14..] == [13, newline] + later;
    WrittenCandidate(h);
    AnyLineEndTaken(newline, later);
  }

  /**
   A magic whose fourteen bytes are no header with a good checksum is displayed with them, and the
   search goes on behind.
   */
  lemma RejectedIsShown(eats: Transfers, text: bytes, raw: bytes, later: bytes)
    requires OnlyText(text) && |raw| == 14
    requires forall b: bytes | |b| == 7 && HexDecode(raw) == Some(b) :: Digits(Crc(b[..5])) != b[5..]
    ensures Shown(eats, text + (MAGIC + (raw + later))) == text + (MAGIC + raw + Shown(eats, later))
  {
    hide Shown, OnlyText, Crc, HexDecode;
    TextShown(eats, text, MAGIC + (raw + later));
    MagicFirst(eats, raw + later);
    assert (raw + later)[..14] == raw && (raw + later)[14..] == later;
  }

  /**
   Of a stream that ends within a header, or before it is certain what follows one, only the text
   in front is displayed.
   */
  lemma CutShortIsLost(eats: Transfers, text: bytes, raw: bytes, h: Header)
    requires OnlyText(text) && |raw| < 14
    ensures Shown(eats, text + (MAGIC + raw)) == text
    ensures Shown(eats, text + (MAGIC + HexEncode(RawHeader(h)))) == text
    ensures Shown(eats, text + (MAGIC + (HexEncode(RawHeader(h)) + [13]))) == text
  {
    hide Shown, OnlyText, Crc, HexEncode, RawHeader, Candidate;
    var hex := HexEncode(RawHeader(h));
    WrittenCandidate(h);
    TextShown(eats, text, MAGIC + raw);
    MagicFirst(eats, raw);
    TextShown(eats, text, MAGIC + hex);
    MagicFirst(eats, hex);
    assert |hex| == 14 && hex[..14] == hex && hex[14..] == [];
    TextShown(eats, text, MAGIC + (hex + [13]));
    MagicFirst(eats, hex + [13]);
    assert (hex + [13])[..14] == hex && (hex + [13])[14..] == [13];
    assert LineEnds([13][1..], 1).None?;
    assert text + [] == text;
  }

  /** Behind a header at most two bytes are taken for its line end, each a carriage return or a newline of either kind. */
  lemma LineEndsAre(a: byte, b: byte, rest: bytes)
    ensures LineEnds([a, b] + rest, 2)
            == Some(if a !in {13, 10, 138} then [a, b] + rest else if b !in {13, 10, 138} then [b] + rest else rest)
  {
    var s := [a, b] + rest;
    assert s[1..] == [b] + rest && ([b] + rest)[1..] == rest;
    assert LineEnds(rest, 0) == Some(rest);
  }

  // ------------------------------------------------- what a pausing stream shows

  /** The longest end of a stream with which the magic may begin. */
  function Tail(s: bytes): (t: bytes)
    ensures t <= MAGIC && |t| <= |s|
  {
    if s <= MAGIC then s else Tail(s[1..])
  }

  lemma {:induction false} TailIsLongest(s: bytes, i: nat)
    requires i <= |s|
    ensures s[|s| - |Tail(s)|..] == Tail(s)
    ensures s[i..] <= MAGIC ==> |s| - i <= |Tail(s)|
  {
    if !(s <= MAGIC) {
      assert s[0..] == s;
      TailIsLongest(s[1..], if i == 0 then 0 else i - 1);
      assert i > 0 ==> s[1..][i - 1..] == s[i..];
      assert s[1..][|s[1..]| - |Tail(s)|..] == s[|s| - |Tail(s)|..];
    }
  }

  /** Matching goes on from the tail alone. */
  lemma {:induction false} TailGoesOn(s: bytes, b: byte)
    ensures Tail(s + [b]) == Tail(Tail(s) + [b])
  {
    if !(s <= MAGIC) {
      assert (s + [b])[..|s|] == s;
      assert !(s + [b] <= MAGIC);
      assert (s + [b])[1..] == s[1..] + [b];
      TailGoesOn(s[1..], b);
    }
  }

  /**
   What is not yet shown of a text when no more has arrived: a beginning of the magic, a magic
   without its fourteen bytes, or a candidate that was rejected with the last byte there is.
   */
  function Held(s: bytes): bytes
    decreases |s|
  {
    var at := FindMagic(s);
    if at.None? then Tail(s)
    else if |s| <= at.value + 18 then s[at.value..]
    else Held(s[at.value + 18..])
  }

  lemma TailIsMagic(s: bytes)
    ensures Tail(s) == MAGIC <==> |s| >= 4 && s[|s| - 4..] == MAGIC
  {
    hide Tail;
    if |s| >= 4 {
      TailIsLongest(s, |s| - 4);
    }
  }

  lemma OnlyAtEnd(seg: bytes, b: byte, j: nat)
    requires FindMagic(seg).None? && MagicAt(seg + [b], j)
    ensures |seg| >= 3 && j == |seg| - 3 && (seg + [b])[|seg| - 3..] == MAGIC
  {
    hide FindMagic;
    if j + 4 <= |seg| {
      MagicInside(seg, b, j);
    } else {
      LastFour(seg + [b], j);
    }
  }

  lemma LastFour(s: bytes, j: nat)
    requires j + 4 == |s|
    ensures s[j..] == s[j..j + 4]
  {
  }

  lemma MagicIsEnd(seg: bytes, b: byte)
    requires |seg| >= 3 && (seg + [b])[|seg| - 3..] == MAGIC
    ensures MagicAt(seg + [b], |seg| - 3) && seg + [b] == seg[..|seg| - 3] + MAGIC
  {
    var s := seg + [b];
    assert s[|seg| - 3..|seg| + 1] == s[|seg| - 3..];
    assert s == s[..|seg| - 3] + s[|seg| - 3..] && s[..|seg| - 3] == seg[..|seg| - 3];
  }

  /** A piece of text that ends in a magic is matched there, and not before. */
  lemma MatchedAtEnd(seg: bytes, b: byte)
    requires FindMagic(seg).None?
    ensures Tail(seg + [b]) != MAGIC ==> FindMagic(seg + [b]).None?
    ensures Tail(seg + [b]) == MAGIC ==>
              |seg| >= 3 && seg + [b] == seg[..|seg| - 3] + MAGIC && FindMagic(seg + [b]) == Some(|seg| - 3)
  {
    hide FindMagic, Tail, MagicAt;
    var s := seg + [b];
    TailIsMagic(s);
    forall j: nat | MagicAt(s, j)
      ensures |seg| >= 3 && j == |seg| - 3 && s[|seg| - 3..] == MAGIC
    {
      OnlyAtEnd(seg, b, j);
    }
    if Tail(s) == MAGIC {
      MagicIsEnd(seg, b);
      FirstMagic(s, |seg| - 3);
    } else {
      NoMagicAnywhere(s);
    }
  }

  lemma NoMagicAnywhere(s: bytes)
    ensures FindMagic(s).None? <==> forall j: nat :: !MagicAt(s, j)
  {
  }

  lemma MagicInside(seg: bytes, b: byte, j: nat)
    requires j + 4 <= |seg| && MagicAt(seg + [b], j)
    ensures MagicAt(seg, j)
  {
    assert (seg + [b])[j..j + 4] == seg[j..j + 4];
  }

  lemma HeldAt(s: bytes, i: nat)
    requires FindMagic(s) == Some(i)
    ensures i + 4 <= |s| && Held(s) == if |s| <= i + 18 then s[i..] else Held(s[i + 18..])
  {
    hide FindMagic, Tail;
  }

  lemma TextAt(s: bytes, i: nat)
    requires FindMagic(s) == Some(i)
    ensures OnlyText(s) <==>
              |s| >= i + 18 && Candidate(s[i + 4..i + 18]).None? && OnlyText(s[i + 18..])
  {
    hide FindMagic, Candidate;
    if |s| >= i + 18 {
      assert s[i..][18..] == s[i + 18..] && s[i..][4..18] == s[i + 4..i + 18];
    }
  }

  /** A candidate that is not finished, or was just rejected, is held as it is. */
  lemma HeldCandidate(a: bytes, raw: bytes)
    requires FindMagic(a + MAGIC) == Some(|a|) && |raw| <= 14
    ensures Held(a + MAGIC + raw) == MAGIC + raw
  {
    hide MagicAt, FindMagic, Held, OnlyText, Candidate;
    SameFirstMagic(a, raw);
    var s := a + MAGIC + raw;
    HeldAt(s, |a|);
    DropFront(a, MAGIC, raw);
  }

  lemma DropFront(a: bytes, b: bytes, c: bytes)
    ensures (a + b + c)[|a|..] == b + c
  {
    assert a + b + c == a + (b + c);
  }

  lemma SameFirstMagic(a: bytes, rest: bytes)
    requires FindMagic(a + MAGIC) == Some(|a|)
    ensures FindMagic(a + MAGIC + rest) == Some(|a|)
  {
    hide FindMagic;
    var s := a + MAGIC + rest;
    assert s[|a|..|a| + 4] == MAGIC;
    forall j: nat | j < |a|
      ensures !MagicAt(s, j)
    {
      assert j + 4 <= |a| + 4;
      assert s[j..j + 4] == (a + MAGIC)[j..j + 4];
      assert !MagicAt(a + MAGIC, j);
    }
    FirstMagic(s, |a|);
  }

  /** What was matched and rejected has no influence on what comes behind it. */
  ghost predicate Closed(done: bytes) {
    && (forall x :: x != [] ==> Held(done + x) == Held(x))
    && (forall x :: OnlyText(done + x) <==> OnlyText(x))
  }

  lemma NothingIsClosed()
    ensures Closed([])
  {
    hide Held, OnlyText;
    assert forall x: bytes :: [] + x == x;
  }

  lemma ClosedMeans(done: bytes, x: bytes)
    requires Closed(done)
    ensures (x != [] ==> Held(done + x) == Held(x)) && (OnlyText(done + x) <==> OnlyText(x))
  {
    hide Held, OnlyText;
  }

  lemma CloseOne(done: bytes, a: bytes, raw: bytes)
    requires Closed(done) && FindMagic(a + MAGIC) == Some(|a|) && |raw| == 14 && Candidate(raw).None?
    ensures Closed(done + (a + MAGIC + raw)) && Held(done + (a + MAGIC + raw)) == MAGIC + raw
  {
    hide Held, OnlyText, Candidate, Closed;
    var piece := a + MAGIC + raw;
    ClosedMeans(done, piece);
    HeldCandidate(a, raw);
    forall x: bytes
      ensures (x != [] ==> Held(done + piece + x) == Held(x)) && (OnlyText(done + piece + x) <==> OnlyText(x))
    {
      assert done + piece + x == done + (piece + x);
      ClosedMeans(done, piece + x);
      BehindRejected(a, raw, x);
    }
    AllBehind(done + piece);
  }

  lemma AllBehind(done: bytes)
    requires forall x: bytes :: (x != [] ==> Held(done + x) == Held(x)) && (OnlyText(done + x) <==> OnlyText(x))
    ensures Closed(done)
  {
    hide Held, OnlyText;
  }

  lemma BehindRejected(a: bytes, raw: bytes, x: bytes)
    requires FindMagic(a + MAGIC) == Some(|a|) && |raw| == 14 && Candidate(raw).None?
    ensures x != [] ==> Held(a + MAGIC + raw + x) == Held(x)
    ensures OnlyText(a + MAGIC + raw + x) <==> OnlyText(x)
  {
    hide Candidate, MagicAt, Held, FindMagic, OnlyText;
    var s := a + MAGIC + raw + x;
    assert s == a + MAGIC + (raw + x);
    SameFirstMagic(a, raw + x);
    HeldAt(s, |a|);
    TextAt(s, |a|);
    assert s[|a| + 18..] == x && s[|a| + 4..|a| + 18] == raw;
  }

  /** In a text a magic is followed by fourteen bytes that are rejected. */
  lemma TextRejects(done: bytes, a: bytes, rest: bytes)
    requires Closed(done) && FindMagic(a + MAGIC) == Some(|a|) && OnlyText(done + (a + MAGIC + rest))
    ensures |rest| >= 14 && Candidate(rest[..14]).None?
  {
    hide Candidate, MagicAt, Held, Closed, FindMagic, OnlyText;
    var s := a + MAGIC + rest;
    ClosedMeans(done, s);
    SameFirstMagic(a, rest);
    TextAt(s, |a|);
    assert |rest| >= 14 ==> s[|a| + 4..|a| + 18] == rest[..14];
  }

  /** Without a magic only the tail is held. */
  lemma HeldTail(done: bytes, seg: bytes)
    requires Closed(done) && FindMagic(seg).None? && seg != []
    ensures Held(done + seg) == Tail(seg)
  {
    hide Tail, MagicAt, Closed;
    ClosedMeans(done, seg);
  }
}
