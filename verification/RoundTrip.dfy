/**
 What a reader makes of what a writer wrote, when the line adds flow control of its own
 and noise between frames.
 */
module RoundTrip {
  import opened Bytes
  import opened Crc16
  import opened Wire

  // ------------------------------------------------------------ flow control

  function Strip(s: bytes): bytes {
    if s == [] then [] else if Flow(s[0]) then Strip(s[1..]) else [s[0]] + Strip(s[1..])
  }

  /** The stream does not end in flow control. */
  predicate EndsClean(s: bytes) {
    s == [] || !Flow(s[|s| - 1])
  }

  lemma {:induction false} StripEmpty(w: bytes)
    requires Strip(w) == [] && EndsClean(w)
    ensures w == []
  {
    if w != [] {
      StripEmpty(w[1..]);
    }
  }

  /** A raw read takes the next stripped byte, wherever flow control was inserted. */
  lemma {:induction false} NextRaw(w: bytes, tail: bytes) returns (w': bytes)
    requires Strip(w) != [] && EndsClean(w)
    ensures Raw(w + tail) == Parsed(Ok(Strip(w)[0]), w' + tail)
    ensures Strip(w') == Strip(w)[1..] && EndsClean(w')
  {
    assert (w + tail)[1..] == w[1..] + tail;
    if Flow(w[0]) {
      w' := NextRaw(w[1..], tail);
    } else {
      w' := w[1..];
    }
  }

  // ---------------------------------------------------------------- escaping

  /** No flow-control byte is written, and no ZDLE is followed by another or ends the text. */
  ghost predicate WellEscaped(s: bytes) {
    forall i | 0 <= i < |s| :: WellEscapedAt(s, i)
  }

  ghost predicate WellEscapedAt(s: bytes, i: nat)
    requires i < |s|
  {
    !Flow(s[i]) && (s[i] == ZDLE ==> i + 1 < |s| && s[i + 1] != ZDLE)
  }

  lemma WellEscapedConcat(a: bytes, b: bytes)
    requires WellEscaped(a) && WellEscaped(b)
    ensures WellEscaped(a + b)
  {
    var s := a + b;
    forall i | 0 <= i < |s|
      ensures WellEscapedAt(s, i)
    {
      if i < |a| {
        assert WellEscapedAt(a, i);
      } else {
        assert WellEscapedAt(b, i - |a|);
      }
    }
  }

  lemma {:induction false} EscapeWell(d: bytes)
    ensures WellEscaped(Escape(d))
  {
    if d != [] {
      EscapeWell(d[1..]);
      WellEscapedConcat(Escape1(d[0]), Escape(d[1..]));
    }
  }

  /** The body of a subpacket never holds flow control, nor two adjacent ZDLEs. */
  lemma BodyWellEscaped(sum32: Checksum32, data: bytes, end: Marker, wide: bool)
    ensures WellEscaped(DataBody(sum32, data, end, wide))
  {
    var check := Check(sum32, wide, data + [end]);
    EscapeWell(data);
    EscapeWell(check);
    WellEscapedConcat([ZDLE, end], Escape(check));
    WellEscapedConcat(Escape(data), [ZDLE, end] + Escape(check));
  }

  /** What an escape stands for. */
  lemma EscapeIs(v: byte)
    ensures var e := Escape1(v);
            if |e| == 2 then
              && e[0] == ZDLE && e[1] != ZDLE && !(ZCRCE <= e[1] <= ZCRCW)
              && (if e[1] == 108 then v == 0x7f else if e[1] == 109 then v == 0xff
                  else Column(e[1]) == 2 && v == e[1] - 64)
            else e == [v] && v != ZDLE
  {
  }

  lemma EscapedStep(v: byte, after: bytes, w: bytes, tail: bytes) returns (w': bytes)
    requires Strip(w) == Escape1(v) + after && EndsClean(w)
    ensures Escaped(w + tail) == Parsed(Ok(v), w' + tail)
    ensures Strip(w') == after && EndsClean(w')
  {
    hide Strip, Raw, Column, Escape1;
    EscapeIs(v);
    w' := NextRaw(w, tail);
    if |Escape1(v)| == 2 {
      assert Strip(w') == [Escape1(v)[1]] + after;
      w' := NextRaw(w', tail);
    } else {
      assert Escape1(v) == [v] && Strip(w) == [v] + after;
    }
  }

  lemma {:induction false} EscapedManyReads(b: bytes, got: bytes, w: bytes, tail: bytes)
    requires Strip(w) == Escape(b) && EndsClean(w)
    ensures EscapedMany(w + tail, |b|, got) == Parsed(Ok(got + b), tail)
  {
    hide Escaped, Escape1, Strip;
    if b == [] {
      StripEmpty(w);
      assert w + tail == tail && got + b == got;
    } else {
      var w' := EscapedStep(b[0], Escape(b[1..]), w, tail);
      EscapedManyReads(b[1..], got + [b[0]], w', tail);
      assert got + [b[0]] + b[1..] == got + b;
    }
  }

  // ------------------------------------------------------------- subpackets

  /** A token read takes a whole escape, or one plain byte. */
  lemma TokenReads(v: byte, after: bytes, w: bytes, tail: bytes) returns (w': bytes)
    requires Strip(w) == Escape1(v) + after && EndsClean(w)
    ensures ReadToken(w + tail) == Parsed(Ok(Value(v)), w' + tail)
    ensures Strip(w') == after && EndsClean(w')
  {
    hide Strip, Raw, Column, Escape1;
    EscapeIs(v);
    w' := NextRaw(w, tail);
    if |Escape1(v)| == 2 {
      assert Strip(w') == [Escape1(v)[1]] + after;
      w' := NextRaw(w', tail);
    } else {
      assert Escape1(v) == [v] && Strip(w) == [v] + after;
    }
  }

  lemma MarkReads(end: Marker, after: bytes, w: bytes, tail: bytes) returns (w': bytes)
    requires Strip(w) == [ZDLE, end] + after && EndsClean(w)
    ensures ReadToken(w + tail) == Parsed(Ok(Mark(end)), w' + tail)
    ensures Strip(w') == after && EndsClean(w')
  {
    w' := NextRaw(w, tail);
    assert Strip(w') == [end] + after;
    w' := NextRaw(w', tail);
  }

  lemma ValueStep(
      sum32: Checksum32, wide: bool, got: bytes, v: byte, after: bytes, w: bytes, tail: bytes)
      returns (w': bytes)
    requires Strip(w) == Escape1(v) + after && EndsClean(w) && |got| <= MAX_SUBPACKET
    ensures DataFrom(sum32, wide, w + tail, got) == DataFrom(sum32, wide, w' + tail, got + [v])
    ensures Strip(w') == after && EndsClean(w')
  {
    w' := TokenReads(v, after, w, tail);
  }

  /** What follows the payload on the wire. */
  function Ending(sum32: Checksum32, wide: bool, data: bytes, end: Marker): bytes {
    [ZDLE, end] + Escape(Check(sum32, wide, data + [end]))
  }

  lemma MarkerStep(sum32: Checksum32, wide: bool, data: bytes, got: bytes, end: Marker, w: bytes, tail: bytes)
    requires |got| <= MAX_SUBPACKET && EndsClean(w) && Strip(w) == Ending(sum32, wide, data, end)
    ensures DataFrom(sum32, wide, w + tail, got)
            == Parsed(if Check(sum32, wide, got + [end]) == Check(sum32, wide, data + [end]) then Ok((got, end))
                      else Err(BadChecksum), tail)
  {
    var check := Check(sum32, wide, data + [end]);
    var w' := MarkReads(end, Escape(check), w, tail);
    EscapedManyReads(check, [], w', tail);
    assert [] + check == check;
  }

  /** Reading goes through the payload byte by byte, as far as the limit allows. */
  lemma {:induction false} PayloadReads(
      sum32: Checksum32, wide: bool, got: bytes, d: bytes, after: bytes, w: bytes, tail: bytes)
      returns (w': bytes)
    requires EndsClean(w) && |got + d| <= MAX_SUBPACKET + 1
    requires Strip(w) == Escape(d) + after
    ensures DataFrom(sum32, wide, w + tail, got) == DataFrom(sum32, wide, w' + tail, got + d)
    ensures Strip(w') == after && EndsClean(w')
    decreases |d|
  {
    hide DataFrom, Escape1, Strip;
    if d == [] {
      assert got + d == got && Escape(d) + after == after;
      w' := w;
    } else {
      var rest := Escape(d[1..]) + after;
      assert Strip(w) == Escape1(d[0]) + rest;
      var w1 := ValueStep(sum32, wide, got, d[0], rest, w, tail);
      w' := PayloadReads(sum32, wide, got + [d[0]], d[1..], after, w1, tail);
      assert got + [d[0]] + d[1..] == got + d;
    }
  }

  lemma {:induction false} EscapeConcat(a: bytes, b: bytes)
    ensures Escape(a + b) == Escape(a) + Escape(b)
  {
    if a == [] {
      assert a + b == b;
    } else {
      assert (a + b)[1..] == a[1..] + b;
      EscapeConcat(a[1..], b);
    }
  }

  /**
   `w` is a written subpacket with flow control inserted anywhere before its last byte.
   It is read back, and the stream left just after it, exactly when the payload is at most
   one mebibyte.
   */
  lemma SubpacketRoundTrip(
      sum32: Checksum32, wide: bool, data: bytes, end: Marker, w: bytes, tail: bytes)
    requires Strip(w) == DataBody(sum32, data, end, wide) && EndsClean(w)
    ensures |data| <= 0x10_0000
            <==> ReadData(sum32, wide, w + tail) == Parsed(Ok((data, end)), tail)
  {
    if |data| <= MAX_SUBPACKET {
      var w' := PayloadReads(sum32, wide, [], data, Ending(sum32, wide, data, end), w, tail);
      assert [] + data == data;
      MarkerStep(sum32, wide, data, data, end, w', tail);
    } else {
      Oversized(sum32, wide, data, Ending(sum32, wide, data, end), w, tail);
    }
  }

  /**
   `w` is a written subpacket in which the line has put `got` in the place of the payload, escaped
   as it should be. The reader stops right behind it, and takes it exactly when the checksums of
   the two payloads agree.
   */
  lemma DamagedSubpacket(
      sum32: Checksum32, wide: bool, data: bytes, got: bytes, end: Marker, w: bytes, tail: bytes)
    requires Strip(w) == Escape(got) + Ending(sum32, wide, data, end) && EndsClean(w) && |got| <= MAX_SUBPACKET
    ensures ReadData(sum32, wide, w + tail)
            == Parsed(if Check(sum32, wide, got + [end]) == Check(sum32, wide, data + [end]) then Ok((got, end))
                      else Err(BadChecksum), tail)
  {
    hide DataFrom, Strip, Ending, Check;
    var w' := PayloadReads(sum32, wide, [], got, Ending(sum32, wide, data, end), w, tail);
    assert [] + got == got;
    MarkerStep(sum32, wide, data, got, end, w', tail);
  }

  /** Damage to one payload byte, or to two next to each other, is always noticed. */
  lemma BurstIsNoticed(
      sum32: Checksum32, data: bytes, got: bytes, at: nat, end: Marker, w: bytes, tail: bytes)
    requires Strip(w) == Escape(got) + Ending(sum32, false, data, end) && EndsClean(w) && |got| <= MAX_SUBPACKET
    requires |got| == |data| && got != data && at < |data|
    requires forall i | 0 <= i < |data| && i != at && i != at + 1 :: got[i] == data[i]
    ensures ReadData(sum32, false, w + tail) == Parsed(Err(BadChecksum), tail)
  {
    hide ReadData, Strip, Ending, Crc;
    DamagedSubpacket(sum32, false, data, got, end, w, tail);
    assert (got + [end])[..|got|] == got && (data + [end])[..|data|] == data;
    BurstDetected(got + [end], data + [end], at);
    DigitsDiffer(got + [end], data + [end]);
  }

  lemma DigitsDiffer(a: bytes, b: bytes)
    ensures Digits(Crc(a)) == Digits(Crc(b)) <==> Crc(a) == Crc(b)
  {
    hide Crc, ToBits, FromBits;
    var (c, d) := (Crc(a), Crc(b));
    ToFromBits(c[..8]);
    ToFromBits(c[8..]);
    ToFromBits(d[..8]);
    ToFromBits(d[8..]);
    assert c == c[..8] + c[8..] && d == d[..8] + d[8..];
  }

  lemma Oversized(sum32: Checksum32, wide: bool, data: bytes, after: bytes, w: bytes, tail: bytes)
    requires Strip(w) == Escape(data) + after && EndsClean(w)
    requires |data| > MAX_SUBPACKET
    ensures ReadData(sum32, wide, w + tail).result == Err(TooLarge)
  {
    hide DataFrom, Strip, EndsClean, Escape;
    var most, more := data[..MAX_SUBPACKET + 1], data[MAX_SUBPACKET + 1..];
    assert data == most + more;
    EscapeConcat(most, more);
    assert Escape(most) + Escape(more) + after == Escape(most) + (Escape(more) + after);
    var w' := PayloadReads(sum32, wide, [], most, Escape(more) + after, w, tail);
    assert [] + most == most;
    LimitReached(sum32, wide, w' + tail, most);
  }

  lemma LimitReached(sum32: Checksum32, wide: bool, s: bytes, got: bytes)
    requires |got| > MAX_SUBPACKET
    ensures DataFrom(sum32, wide, s, got).result == Err(TooLarge)
  {
  }

  lemma LeadingFlow(sum32: Checksum32, wide: bool, s: bytes)
    ensures ReadData(sum32, wide, [XON] + s) == ReadData(sum32, wide, s)
  {
    assert ([XON] + s)[1..] == s;
  }

  lemma {:induction false} StripOfPlain(s: bytes)
    requires WellEscaped(s)
    ensures Strip(s) == s
  {
    if s != [] {
      assert WellEscapedAt(s, 0);
      forall i | 0 <= i < |s[1..]|
        ensures WellEscapedAt(s[1..], i)
      {
        assert WellEscapedAt(s, i + 1);
      }
      StripOfPlain(s[1..]);
    }
  }

  lemma BodyIsItself(sum32: Checksum32, data: bytes, end: Marker, wide: bool)
    ensures Strip(DataBody(sum32, data, end, wide)) == DataBody(sum32, data, end, wide)
    ensures EndsClean(DataBody(sum32, data, end, wide))
  {
    var body := DataBody(sum32, data, end, wide);
    BodyWellEscaped(sum32, data, end, wide);
    StripOfPlain(body);
    assert body != [] ==> WellEscapedAt(body, |body| - 1);
  }

  /** The undisturbed case: what is left is the flow-control byte of the writer and the rest. */
  lemma EncodedDataReads(sum32: Checksum32, wide: bool, data: bytes, end: Marker, tail: bytes)
    requires |data| <= MAX_SUBPACKET
    ensures ReadData(sum32, wide, EncodeData(sum32, data, end, wide) + tail)
            == Parsed(Ok((data, end)), DataTail(end) + tail)
  {
    hide ReadData, DataBody;
    var body := DataBody(sum32, data, end, wide);
    BodyIsItself(sum32, data, end, wide);
    SubpacketRoundTrip(sum32, wide, data, end, body, DataTail(end) + tail);
    assert body + DataTail(end) + tail == body + (DataTail(end) + tail);
  }

  // ----------------------------------------------------------------- headers

  lemma HexDigitValue(n: nat)
    requires n < 16
    ensures HexValue(HexDigit(n)) == Some(n)
  {
  }

  lemma {:induction false} HexRoundTrip(b: bytes)
    ensures HexDecode(HexEncode(b)) == Some(b)
  {
    if b != [] {
      var h := HexEncode(b);
      HexDigitValue(b[0] / 16);
      HexDigitValue(b[0] % 16);
      HexRoundTrip(b[1..]);
      assert h[2..] == HexEncode(b[1..]);
      assert [b[0]] + b[1..] == b;
    }
  }

  /** The header as it comes back: the hex form always carries the 16-bit checksum. */
  function Narrow(h: Header): Header { h.(wide := false) }

  lemma HexBodyReads(sum32: Checksum32, h: Header, tail: bytes)
    ensures HexBody(sum32, HexEncode(RawHeader(h)) + ([CR, LF] + HeaderTail(h)) + tail)
            == Parsed(Ok(Narrow(h)), HeaderTail(h) + tail)
  {
    var raw := RawHeader(h);
    var rest := [CR, LF] + (HeaderTail(h) + tail);
    var s := HexEncode(raw) + ([CR, LF] + HeaderTail(h)) + tail;
    assert s == HexEncode(raw) + rest;
    assert s[..14] == HexEncode(raw) && s[14..] == rest;
    HexRoundTrip(raw);
    var body := [h.kind] + h.data;
    assert raw[..5] == body && raw[5..] == Digits(Crc(body)) && raw[1..5] == h.data;
    assert rest[2..] == HeaderTail(h) + tail;
  }

  /** The search takes `m` for the beginning of a header of format `k`, and `s` for the rest of it. */
  predicate Leads(m: bytes, k: byte, s: bytes) {
    var stars := Raw(m);
    var start := SkipStars(stars.rest);
    stars.result == Ok(STAR) && start.result == Ok(ZDLE) && Raw(start.rest) == Parsed(Ok(k), s)
  }

  /** What the format letter says about the rest: hex digits, or bytes with one of the two checksums. */
  function FormatReads(sum32: Checksum32, k: byte, s: bytes): Parsed<Header> {
    if k == 66 then HexBody(sum32, s) else BinaryBody(sum32, k == 67, s)
  }

  lemma LeadReads(sum32: Checksum32, m: bytes, k: byte, s: bytes, skipped: nat)
    requires Leads(m, k, s) && 65 <= k <= 67 && skipped < MAX_SKIPPED
    ensures HeaderFrom(sum32, m, skipped) == FormatReads(sum32, k, s)
  {
    hide HexBody, BinaryBody, SkipStars, Raw;
  }

  lemma MagicLeads(s: bytes)
    ensures Leads(MAGIC + s, 66, s)
  {
    var m := MAGIC + s;
    assert m[1..] == [STAR, ZDLE, 66] + s;
    assert m[1..][1..] == [ZDLE, 66] + s;
    assert m[1..][1..][1..] == [66] + s;
    assert ([66] + s)[1..] == s;
    assert SkipStars([ZDLE, 66] + s) == Parsed(Ok(ZDLE), [66] + s);
  }

  /** A binary header begins with one star; flow control may stand anywhere in it. */
  lemma BinaryLeads(k: byte, after: bytes, w: bytes, tail: bytes) returns (w': bytes)
    requires Strip(w) == [STAR, ZDLE, k] + after && EndsClean(w)
    ensures Leads(w + tail, k, w' + tail)
    ensures Strip(w') == after && EndsClean(w')
  {
    hide Strip, Raw;
    w' := NextRaw(w, tail);
    assert Strip(w') == [ZDLE, k] + after;
    var rest := w' + tail;
    w' := NextRaw(w', tail);
    assert SkipStars(rest) == Parsed(Ok(ZDLE), w' + tail);
    assert Strip(w') == [k] + after;
    w' := NextRaw(w', tail);
  }

  /** What is left behind a run of stars and the byte that ends it; nothing when the run does not end. */
  function BehindStars(s: bytes): Option<bytes> {
    if s == [] then None
    else if Flow(s[0]) || s[0] == STAR then BehindStars(s[1..])
    else Some(s[1..])
  }

  lemma {:induction false} BehindStarsShorter(s: bytes)
    ensures BehindStars(s).Some? ==> |BehindStars(s).value| < |s|
    ensures BehindStars(s).Some? && ZDLE !in s ==> ZDLE !in BehindStars(s).value
  {
    if s != [] && (Flow(s[0]) || s[0] == STAR) {
      BehindStarsShorter(s[1..]);
    }
  }

  /**
   How many turns of the search noise takes: one for each byte, but only one for a run of
   stars together with the byte that ends it, and none for a run that goes on into the header.
   */
  function Turns(noise: bytes): nat
    decreases |noise|
  {
    if noise == [] then 0
    else if Flow(noise[0]) then Turns(noise[1..])
    else if noise[0] != STAR then 1 + Turns(noise[1..])
    else
      BehindStarsShorter(noise[1..]);
      match BehindStars(noise[1..])
      case None => 0
      case Some(left) => 1 + Turns(left)
  }

  /** Skipping stars in noise either stops behind the run or runs into what follows. */
  lemma {:induction false} StarsInNoise(noise: bytes, m: bytes)
    requires ZDLE !in noise
    ensures match BehindStars(noise)
            case None => SkipStars(noise + m) == SkipStars(m)
            case Some(left) =>
              var p := SkipStars(noise + m);
              p.result.Ok? && p.result.value != ZDLE && p.rest == left + m
  {
    var whole := noise + m;
    if noise == [] {
      assert whole == m;
    } else {
      assert whole[1..] == noise[1..] + m;
      StarsInNoise(noise[1..], m);
      if Flow(noise[0]) {
        assert Raw(whole) == Raw(whole[1..]);
      }
    }
  }

  /** The search finds the header behind any noise it has turns left for, and no other. */
  lemma {:induction false} SearchEnds(sum32: Checksum32, noise: bytes, m: bytes, k: byte, s: bytes, skipped: nat)
    requires ZDLE !in noise && skipped <= MAX_SKIPPED && Leads(m, k, s) && 65 <= k <= 67
    ensures var p := HeaderFrom(sum32, noise + m, skipped);
            if skipped + Turns(noise) < MAX_SKIPPED then p == FormatReads(sum32, k, s) else p.result == Err(NotFound)
    decreases |noise|
  {
    hide HexBody, BinaryBody, SkipStars, BehindStars;
    var whole := noise + m;
    if skipped == MAX_SKIPPED {
    } else if noise == [] {
      assert whole == m;
      LeadReads(sum32, m, k, s, skipped);
    } else {
      assert whole[1..] == noise[1..] + m;
      if Flow(noise[0]) {
        SearchEnds(sum32, noise[1..], m, k, s, skipped);
        FlowSkipped(sum32, whole, skipped);
      } else if noise[0] != STAR {
        SearchEnds(sum32, noise[1..], m, k, s, skipped + 1);
      } else {
        StarsInNoise(noise[1..], m);
        BehindStarsShorter(noise[1..]);
        MoreStars(m);
        if BehindStars(noise[1..]).Some? {
          SearchEnds(sum32, BehindStars(noise[1..]).value, m, k, s, skipped + 1);
        }
      }
    }
  }

  /** A star in front of stars makes no difference. */
  lemma MoreStars(m: bytes)
    requires Raw(m).result == Ok(STAR)
    ensures SkipStars(m) == SkipStars(Raw(m).rest)
  {
  }

  lemma FlowSkipped(sum32: Checksum32, s: bytes, skipped: nat)
    requires s != [] && Flow(s[0]) && skipped <= MAX_SKIPPED
    ensures HeaderFrom(sum32, s, skipped).result == HeaderFrom(sum32, s[1..], skipped).result
    ensures skipped < MAX_SKIPPED ==> HeaderFrom(sum32, s, skipped) == HeaderFrom(sum32, s[1..], skipped)
  {
    assert Raw(s) == Raw(s[1..]);
  }

  /**
   A written header is found behind noise, stray and trailing stars included, and at most
   one XON is left before the rest. Flow control does not count as noise.
   */
  lemma HeaderRoundTrip(sum32: Checksum32, noise: bytes, h: Header, tail: bytes)
    requires ZDLE !in noise && Turns(noise) < 65536
    ensures ReadHeader(sum32, noise + EncodeHeader(h) + tail)
            == Parsed(Ok(Narrow(h)), HeaderTail(h) + tail)
  {
    hide HexBody, HexEncode, RawHeader;
    var s := HexEncode(RawHeader(h)) + ([CR, LF] + HeaderTail(h)) + tail;
    assert noise + EncodeHeader(h) + tail == noise + (MAGIC + s);
    MagicLeads(s);
    SearchEnds(sum32, noise, MAGIC + s, 66, s, 0);
    HexBodyReads(sum32, h, tail);
  }

  /** For all noise without ZDLE: the header is found if and only if the noise leaves a turn for it. */
  lemma HeaderFoundIffTurnLeft(sum32: Checksum32, noise: bytes, h: Header, tail: bytes)
    requires ZDLE !in noise
    ensures Turns(noise) < 65536
            <==> ReadHeader(sum32, noise + EncodeHeader(h) + tail).result == Ok(Narrow(h))
  {
    hide HexBody, HexEncode, RawHeader;
    if Turns(noise) < MAX_SKIPPED {
      HeaderRoundTrip(sum32, noise, h, tail);
    } else {
      var s := HexEncode(RawHeader(h)) + ([CR, LF] + HeaderTail(h)) + tail;
      assert noise + EncodeHeader(h) + tail == noise + (MAGIC + s);
      MagicLeads(s);
      SearchEnds(sum32, noise, MAGIC + s, 66, s, 0);
    }
  }

  /** Noise takes at most a turn for each byte that is not flow control, and exactly that without stars. */
  lemma {:induction false} TurnsAreBytes(noise: bytes)
    ensures Turns(noise) <= |Strip(noise)| && (STAR !in noise ==> Turns(noise) == |Strip(noise)|)
    decreases |noise|
  {
    if noise != [] {
      TurnsAreBytes(noise[1..]);
      if noise[0] == STAR {
        BehindStarsShorter(noise[1..]);
        BehindStarsStripped(noise[1..]);
        if BehindStars(noise[1..]).Some? {
          TurnsAreBytes(BehindStars(noise[1..]).value);
        }
      }
    }
  }

  lemma {:induction false} BehindStarsStripped(s: bytes)
    ensures BehindStars(s).Some? ==> |Strip(BehindStars(s).value)| < |Strip(s)|
  {
    if s != [] && (Flow(s[0]) || s[0] == STAR) {
      BehindStarsStripped(s[1..]);
    }
  }

  /**
   Behind less than 65536 bytes of noise, flow control not counted, the header is always found;
   behind noise without stars only then.
   */
  lemma HeaderFoundBehindShortNoise(sum32: Checksum32, noise: bytes, h: Header, tail: bytes)
    requires ZDLE !in noise
    ensures var found := ReadHeader(sum32, noise + EncodeHeader(h) + tail);
            && (|Strip(noise)| < 65536 ==> found == Parsed(Ok(Narrow(h)), HeaderTail(h) + tail))
            && (STAR !in noise && found.result == Ok(Narrow(h)) ==> |Strip(noise)| < 65536)
  {
    hide ReadHeader, EncodeHeader, Turns;
    TurnsAreBytes(noise);
    HeaderFoundIffTurnLeft(sum32, noise, h, tail);
    if |Strip(noise)| < MAX_SKIPPED {
      HeaderRoundTrip(sum32, noise, h, tail);
    }
  }

  // ---------------------------------------------------------- binary headers

  /**
   A binary header as the standard has it: a star, ZDLE, `A` or `C`, and the type and the four data
   bytes with a checksum of 16 or of 32 bits, escaped.
   */
  function EncodeBinary(sum32: Checksum32, h: Header): bytes {
    var body := [h.kind] + h.data;
    if h.wide then [STAR, ZDLE, 67] + Escape(body + sum32(body)) else [STAR, ZDLE, 65] + Escape(body + Digits(Crc(body)))
  }

  lemma BinaryBodyReads(sum32: Checksum32, h: Header, w: bytes, tail: bytes)
    requires EndsClean(w)
    requires var body := [h.kind] + h.data;
             Strip(w) == Escape(body + if h.wide then sum32(body) else Digits(Crc(body)))
    ensures BinaryBody(sum32, h.wide, w + tail) == Parsed(Ok(h), tail)
  {
    hide Strip, EndsClean, EscapedMany, Crc, Escape, Digits;
    var body := [h.kind] + h.data;
    var raw := body + if h.wide then sum32(body) else Digits(Crc(body));
    EscapedManyReads(raw, [], w, tail);
    assert [] + raw == raw;
    PartsOfRaw(sum32, h);
  }

  lemma PartsOfRaw(sum32: Checksum32, h: Header)
    ensures var body := [h.kind] + h.data;
            var raw := body + if h.wide then sum32(body) else Digits(Crc(body));
            && |raw| == (if h.wide then 9 else 7) && raw[0] == h.kind && raw[1..5] == h.data && raw[..5] == body
            && raw[5..] == if h.wide then sum32(body) else Digits(Crc(body))
  {
    hide Crc, Digits;
  }

  /**
   A binary header of either width is found behind noise and with flow control anywhere in it, and
   exactly what follows it is left.
   */
  lemma BinaryHeaderRoundTrip(sum32: Checksum32, noise: bytes, h: Header, w: bytes, tail: bytes)
    requires ZDLE !in noise && Turns(noise) < 65536
    requires Strip(w) == EncodeBinary(sum32, h) && EndsClean(w)
    ensures ReadHeader(sum32, noise + w + tail) == Parsed(Ok(h), tail)
  {
    hide Strip, EndsClean, HeaderFrom, BinaryBody, Leads, Turns;
    var body := [h.kind] + h.data;
    var check := if h.wide then sum32(body) else Digits(Crc(body));
    var k := if h.wide then 67 else 65;
    assert EncodeBinary(sum32, h) == [STAR, ZDLE, k] + Escape(body + check);
    var w' := BinaryLeads(k, Escape(body + check), w, tail);
    assert noise + w + tail == noise + (w + tail);
    SearchEnds(sum32, noise, w + tail, k, w' + tail, 0);
    BinaryBodyReads(sum32, h, w', tail);
  }

  // --------------------------------------------------- what others may write

  /** The form of a byte when it is escaped: by 64 where that can be, and two bytes with names of their own. */
  function EscapeOf(v: byte): bytes {
    if v == 127 then [24, 108] else if v == 255 then [24, 109]
    else if v < 32 || 128 <= v < 160 then [24, v + 64] else [v]
  }

  /** Each byte escaped or left as it is, as the writer likes; three always have to be escaped. */
  function EscapeAs(d: bytes, plain: seq<bool>): bytes
    requires |plain| == |d|
  {
    if d == [] then [] else
    (if plain[0] && d[0] != 24 && d[0] != 17 && d[0] != 19 then [d[0]] else EscapeOf(d[0])) + EscapeAs(d[1..], plain[1..])
  }

  lemma EitherReads(v: byte, e: bytes, after: bytes, w: bytes, tail: bytes) returns (w': bytes)
    requires e == EscapeOf(v) || (e == [v] && v != 24 && v != 17 && v != 19)
    requires Strip(w) == e + after && EndsClean(w)
    ensures ReadToken(w + tail) == Parsed(Ok(Value(v)), w' + tail) && Escaped(w + tail) == Parsed(Ok(v), w' + tail)
    ensures Strip(w') == after && EndsClean(w')
  {
    hide Strip, Raw;
    w' := NextRaw(w, tail);
    if |e| == 2 {
      assert Strip(w') == [e[1]] + after;
      w' := NextRaw(w', tail);
    }
  }

  lemma {:induction false} AnyPayloadReads(
      sum32: Checksum32, wide: bool, got: bytes, d: bytes, plain: seq<bool>, after: bytes, w: bytes, tail: bytes)
      returns (w': bytes)
    requires EndsClean(w) && |got + d| <= MAX_SUBPACKET && |plain| == |d| && Strip(w) == EscapeAs(d, plain) + after
    ensures DataFrom(sum32, wide, w + tail, got) == DataFrom(sum32, wide, w' + tail, got + d)
    ensures Strip(w') == after && EndsClean(w')
    decreases |d|
  {
    hide EscapeOf, Strip, ReadToken, DataEnd;
    if d == [] {
      assert got + d == got && EscapeAs(d, plain) + after == after;
      w' := w;
    } else {
      var rest := EscapeAs(d[1..], plain[1..]) + after;
      var e := if plain[0] && d[0] != 24 && d[0] != 17 && d[0] != 19 then [d[0]] else EscapeOf(d[0]);
      assert Strip(w) == e + rest;
      var w1 := EitherReads(d[0], e, rest, w, tail);
      w' := AnyPayloadReads(sum32, wide, got + [d[0]], d[1..], plain[1..], after, w1, tail);
      assert got + [d[0]] + d[1..] == got + d;
    }
  }

  lemma {:induction false} AnyManyRead(b: bytes, plain: seq<bool>, got: bytes, w: bytes, tail: bytes)
    requires |plain| == |b| && Strip(w) == EscapeAs(b, plain) && EndsClean(w)
    ensures EscapedMany(w + tail, |b|, got) == Parsed(Ok(got + b), tail)
    decreases |b|
  {
    hide EscapeOf, Strip, Escaped;
    if b == [] {
      StripEmpty(w);
      assert w + tail == tail && got + b == got;
    } else {
      var e := if plain[0] && b[0] != 24 && b[0] != 17 && b[0] != 19 then [b[0]] else EscapeOf(b[0]);
      assert Strip(w) == e + EscapeAs(b[1..], plain[1..]);
      var w1 := EitherReads(b[0], e, EscapeAs(b[1..], plain[1..]), w, tail);
      AnyManyRead(b[1..], plain[1..], got + [b[0]], w1, tail);
      assert got + [b[0]] + b[1..] == got + b;
    }
  }

  /** A subpacket is read however its writer chooses what to escape, and wherever flow control stands. */
  lemma AnyEscapingReads(
      sum32: Checksum32, wide: bool, data: bytes, end: Marker, plain: seq<bool>, last: seq<bool>, w: bytes, tail: bytes)
    requires |data| <= 0x10_0000 && |plain| == |data|
    requires var check := if wide then sum32(data + [end]) else Digits(Crc(data + [end]));
             |last| == |check| && Strip(w) == EscapeAs(data, plain) + ([ZDLE, end] + EscapeAs(check, last)) && EndsClean(w)
    ensures ReadData(sum32, wide, w + tail) == Parsed(Ok((data, end)), tail)
  {
    hide Strip, EscapeAs, ReadToken, EscapedMany, EndsClean, Crc;
    var check := if wide then sum32(data + [end]) else Digits(Crc(data + [end]));
    var w1 := AnyPayloadReads(sum32, wide, [], data, plain, [ZDLE, end] + EscapeAs(check, last), w, tail);
    assert [] + data == data;
    var w2 := MarkReads(end, EscapeAs(check, last), w1, tail);
    AnyManyRead(check, last, [], w2, tail);
    assert [] + check == check;
  }

  /** Any header at all in hexadecimal: it is taken exactly if its checksum is right. */
  lemma HexIsChecked(sum32: Checksum32, b: bytes, tail: bytes)
    requires |b| == 7
    ensures ReadHeader(sum32, MAGIC + (HexEncode(b) + ([13, 10] + tail)))
            == if Digits(Crc(b[..5])) == b[5..] then Parsed(Ok(Header(b[0], b[1..5], false)), tail)
               else Parsed(Err(BadChecksum), [13, 10] + tail)
  {
    hide HexEncode, HeaderFrom, HexDecode, Crc;
    var s := HexEncode(b) + ([13, 10] + tail);
    MagicLeads(s);
    LeadReads(sum32, MAGIC + s, 66, s, 0);
    assert s[..14] == HexEncode(b) && s[14..] == [13, 10] + tail;
    HexRoundTrip(b);
    assert s[14..][2..] == tail;
  }

  /** And in binary, with the checksum that its letter stands for. */
  lemma BinaryIsChecked(sum32: Checksum32, wide: bool, b: bytes, w: bytes, tail: bytes)
    requires |b| == (if wide then 9 else 7) && EndsClean(w)
    requires Strip(w) == [42, 24, if wide then 67 else 65] + Escape(b)
    ensures ReadHeader(sum32, w + tail)
            == Parsed(if b[5..] == (if wide then sum32(b[..5]) else Digits(Crc(b[..5])))
                      then Ok(Header(b[0], b[1..5], wide)) else Err(BadChecksum), tail)
  {
    hide Strip, EndsClean, HeaderFrom, Leads, EscapedMany, Escape, Crc;
    var k := if wide then 67 else 65;
    assert Strip(w) == [STAR, ZDLE, k] + Escape(b);
    var w' := BinaryLeads(k, Escape(b), w, tail);
    LeadReads(sum32, w + tail, k, w' + tail, 0);
    EscapedManyReads(b, [], w', tail);
    assert [] + b == b;
  }

  /** Hexadecimal digits, in either case, and nothing else. */
  lemma HexDigitsAre(v: byte)
    ensures HexValue(v) == if 48 <= v < 58 then Some(v - 48) else if 97 <= v < 103 then Some(v - 97 + 10)
                           else if 65 <= v < 71 then Some(v - 65 + 10) else None
  {
  }

  /** A hexadecimal header may end with a newline that has its eighth bit set, as the standard has it. */
  lemma StandardLineEnd(sum32: Checksum32, noise: bytes, h: Header, tail: bytes)
    requires ZDLE !in noise && Turns(noise) < 65536
    ensures ReadHeader(sum32, noise + (MAGIC + (HexEncode(RawHeader(h)) + ([13, 138] + tail))))
            == Parsed(Ok(Narrow(h)), tail)
  {
    hide HexEncode, RawHeader, HeaderFrom, HexDecode, Turns, Crc;
    var raw := RawHeader(h);
    var s := HexEncode(raw) + ([13, 138] + tail);
    MagicLeads(s);
    SearchEnds(sum32, noise, MAGIC + s, 66, s, 0);
    assert s[..14] == HexEncode(raw) && s[14..] == [13, 138] + tail;
    HexRoundTrip(raw);
    RawIs(h);
    assert s[14..][2..] == tail;
  }

  lemma RawIs(h: Header)
    ensures var raw := RawHeader(h);
            && raw[..5] == [h.kind] + h.data && raw[5..] == Digits(Crc(raw[..5])) && raw[0] == h.kind && raw[1..5] == h.data
  {
    hide Crc;
    var raw, body := RawHeader(h), [h.kind] + h.data;
    assert raw[..5] == body;
  }

  // ------------------------------------------------------------ cancellation

  lemma {:induction false} StripNoFlow(s: bytes)
    requires forall v | v in s :: !Flow(v)
    ensures Strip(s) == s
  {
    if s != [] {
      assert s[0] in s;
      assert forall v | v in s[1..] :: v in s;
      StripNoFlow(s[1..]);
    }
  }

  const FIVE: bytes := [24, 24, 24, 24, 24]

  /** Five ZDLEs in a row end the search for a header. */
  lemma {:induction false} CancelEndsSearch(sum32: Checksum32, noise: bytes, tail: bytes, skipped: nat)
    requires ZDLE !in noise && STAR !in noise && skipped + |noise| < 65536
    ensures HeaderFrom(sum32, noise + (FIVE + tail), skipped).result == Err(Cancelled)
    decreases |noise|
  {
    hide HexBody, BinaryBody;
    var whole := noise + (FIVE + tail);
    if noise == [] {
      assert whole == FIVE + tail;
      assert whole[1..][0] == ZDLE && whole[1..][1] == ZDLE && whole[1..][2] == ZDLE && whole[1..][3] == ZDLE;
    } else {
      assert whole[1..] == noise[1..] + (FIVE + tail);
      CancelEndsSearch(sum32, noise[1..], tail, if Flow(noise[0]) then skipped else skipped + 1);
      if Flow(noise[0]) {
        FlowSkipped(sum32, whole, skipped);
      }
    }
  }

  lemma EscapeHasNoFlow(data: bytes, v: byte)
    requires v in Escape(data)
    ensures !Flow(v)
  {
    hide Escape;
    EscapeWell(data);
    var i :| 0 <= i < |Escape(data)| && Escape(data)[i] == v;
    assert WellEscapedAt(Escape(data), i);
  }

  /** Two of them end a subpacket. */
  lemma CancelEndsSubpacket(sum32: Checksum32, wide: bool, data: bytes, tail: bytes)
    requires |data| <= 0x10_0000
    ensures ReadData(sum32, wide, Escape(data) + [ZDLE, ZDLE] + tail).result == Err(Cancelled)
  {
    hide Escape, Strip, ReadToken;
    var w := Escape(data) + [ZDLE, ZDLE];
    forall v | v in w
      ensures !Flow(v)
    {
      if v in Escape(data) {
        EscapeHasNoFlow(data, v);
      }
    }
    StripNoFlow(w);
    var w' := PayloadReads(sum32, wide, [], data, [ZDLE, ZDLE], w, tail);
    assert [] + data == data;
    TwoCancels(w', tail);
  }

  /** What a side writes that gives up: whatever the other side is reading, it hears of it. */
  lemma CancelIsHeard(sum32: Checksum32, wide: bool, noise: bytes, data: bytes, tail: bytes)
    requires ZDLE !in noise && STAR !in noise && |noise| < 65536 && |data| <= 0x10_0000
    ensures ReadHeader(sum32, noise + CANCEL + tail).result == Err(Cancelled)
    ensures ReadData(sum32, wide, Escape(data) + CANCEL + tail).result == Err(Cancelled)
  {
    hide Escape, ReadData, HeaderFrom;
    assert CANCEL == FIVE + CANCEL[5..];
    assert noise + CANCEL + tail == noise + (FIVE + (CANCEL[5..] + tail));
    CancelEndsSearch(sum32, noise, CANCEL[5..] + tail, 0);
    assert CANCEL == [ZDLE, ZDLE] + CANCEL[2..];
    assert Escape(data) + CANCEL + tail == Escape(data) + [ZDLE, ZDLE] + (CANCEL[2..] + tail);
    CancelEndsSubpacket(sum32, wide, data, CANCEL[2..] + tail);
  }

  lemma TwoCancels(w: bytes, tail: bytes)
    requires Strip(w) == [ZDLE, ZDLE] && EndsClean(w)
    ensures ReadToken(w + tail).result == Err(Cancelled)
  {
    var w' := NextRaw(w, tail);
    w' := NextRaw(w', tail);
  }

  // ------------------------------------------------------------------ frames

  /** What one side writes at a time; subpackets go out with the 16-bit checksum. */
  datatype Frame = HeaderFrame(h: Header) | DataFrame(data: bytes, end: Marker)

  function Encode(sum32: Checksum32, f: Frame): bytes {
    match f
    case HeaderFrame(h) => EncodeHeader(h)
    case DataFrame(data, end) => EncodeData(sum32, data, end, false)
  }

  function EncodeAll(sum32: Checksum32, fs: seq<Frame>): bytes {
    if fs == [] then [] else Encode(sum32, fs[0]) + EncodeAll(sum32, fs[1..])
  }

  function FrameTail(f: Frame): bytes {
    match f
    case HeaderFrame(h) => HeaderTail(h)
    case DataFrame(_, end) => DataTail(end)
  }

  predicate Encodable(f: Frame) {
    match f
    case HeaderFrame(h) => !h.wide
    case DataFrame(data, _) => |data| <= MAX_SUBPACKET
  }

  /** Read a header or a subpacket, as the caller expects. */
  function ReadFrame(sum32: Checksum32, header: bool, s: bytes): Parsed<Frame> {
    if header then
      var p := ReadHeader(sum32, s);
      Parsed(if p.result.Ok? then Ok(HeaderFrame(p.result.value)) else Err(p.result.error), p.rest)
    else
      var p := ReadData(sum32, false, s);
      Parsed(if p.result.Ok? then Ok(DataFrame(p.result.value.0, p.result.value.1))
             else Err(p.result.error), p.rest)
  }

  /** A reader that expects the right kinds in turn gets these frames from this stream. */
  predicate Reads(sum32: Checksum32, s: bytes, fs: seq<Frame>, rest: bytes)
    decreases |fs|
  {
    if fs == [] then s == rest else
    var p := ReadFrame(sum32, fs[0].HeaderFrame?, s);
    p.result == Ok(fs[0]) && Reads(sum32, p.rest, fs[1..], rest)
  }

  lemma OneFrameReads(sum32: Checksum32, pad: bytes, f: Frame, tail: bytes)
    requires Encodable(f) && (pad == [] || pad == [XON])
    ensures ReadFrame(sum32, f.HeaderFrame?, pad + Encode(sum32, f) + tail)
            == Parsed(Ok(f), FrameTail(f) + tail)
  {
    hide ReadData, ReadHeader, EncodeData, EncodeHeader;
    match f
    case HeaderFrame(h) =>
      assert Strip(pad) == [];
      HeaderRoundTrip(sum32, pad, h, tail);
    case DataFrame(data, end) =>
      EncodedDataReads(sum32, false, data, end, tail);
      var s := EncodeData(sum32, data, end, false) + tail;
      LeadingFlow(sum32, false, s);
      assert pad + EncodeData(sum32, data, end, false) + tail == pad + s;
      assert pad == [] ==> pad + s == s;
  }

  lemma TailIsFlow(f: Frame)
    ensures FrameTail(f) == [] || FrameTail(f) == [XON]
  {
  }

  /**
   A whole conversation survives the wire: frames written one after another, each leaving
   its flow-control byte behind, are read back one after another as they were.
   */
  lemma {:induction false} ConversationRoundTrip(
      sum32: Checksum32, pad: bytes, fs: seq<Frame>, tail: bytes) returns (pad': bytes)
    requires (forall f | f in fs :: Encodable(f)) && (pad == [] || pad == [XON])
    ensures pad' == [] || pad' == [XON]
    ensures Reads(sum32, pad + EncodeAll(sum32, fs) + tail, fs, pad' + tail)
    decreases |fs|
  {
    hide Encode, ReadFrame, FrameTail, Encodable;
    if fs == [] {
      assert pad + EncodeAll(sum32, fs) + tail == pad + tail;
      pad' := pad;
    } else {
      var later := EncodeAll(sum32, fs[1..]) + tail;
      OneFrameReads(sum32, pad, fs[0], later);
      TailIsFlow(fs[0]);
      assert pad + EncodeAll(sum32, fs) + tail == pad + Encode(sum32, fs[0]) + later;
      pad' := ConversationRoundTrip(sum32, FrameTail(fs[0]), fs[1..], tail);
      assert FrameTail(fs[0]) + later == FrameTail(fs[0]) + EncodeAll(sum32, fs[1..]) + tail;
    }
  }
}
