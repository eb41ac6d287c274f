/** What is written and what is read, byte for byte, in the numbers of the standard. */
module WireLaws {
  import opened Bytes
  import opened Crc16
  import opened Wire
  import opened RoundTrip

  /**
   The numbers of the standard: the header types of its section 11, end markers and control bytes; the
   generator x^16 + x^12 + x^5 + 1, its highest power first; and for giving up, eight cancels and
   eight backspaces that take them off a screen.
   */
  lemma NumbersAreStandard()
    ensures [ZRQINIT, ZRINIT, ZSINIT, ZACK, ZFILE, ZSKIP, ZNAK, ZABORT, ZFIN, ZRPOS, ZDATA, ZEOF, ZFERR, ZCRC]
            == seq(14, i => i)
    ensures [ZCRCE as char, ZCRCG as char, ZCRCQ as char, ZCRCW as char] == "hijk"
    ensures [XON, XOFF, ZDLE] == [0x11, 0x13, 0x18] && STAR as char == '*' && [CR, LF] == [13, 10]
    ensures forall i | 0 <= i <= 16 :: GENERATOR[i] <==> i in {16 - 16, 16 - 12, 16 - 5, 16 - 0}
    ensures CANCEL == seq(8, _ => 24) + seq(8, _ => 8)
  {
  }

  /** The reader passes over two flow control bytes, and over nothing else. */
  lemma OnlyFlowIsSkipped(v: byte, s: bytes)
    ensures Raw([v] + s) == if v == 17 || v == 19 then Raw(s) else Parsed(Ok(v), s)
  {
    assert ([v] + s)[1..] == s;
  }

  /** No byte that a terminal could take for a command, but ZDLE. */
  predicate Harmless(v: byte) { v == 24 || 32 <= v < 127 || 160 <= v < 255 }

  lemma EscapedIsHarmless(v: byte)
    ensures forall x | x in Escape1(v) :: Harmless(x)
    ensures Escape1(v) == [v] <==> Harmless(v) && v != 24
  {
    var e := Escape1(v);
    assert e == [e[0]] || e == [e[0], e[1]];
  }

  lemma {:induction false} EscapeIsHarmless(b: bytes)
    ensures forall x | x in Escape(b) :: Harmless(x)
  {
    hide Harmless;
    if b != [] {
      EscapedIsHarmless(b[0]);
      EscapeIsHarmless(b[1..]);
    }
  }

  /** All bytes of a subpacket are harmless, but for the XON behind one that waits for an answer. */
  lemma DataIsWritten(sum32: Checksum32, data: bytes, end: Marker, wide: bool)
    ensures var body := DataBody(sum32, data, end, wide);
            && (forall x | x in body :: Harmless(x))
            && EncodeData(sum32, data, end, wide) == if end == 107 then body + [17] else body
  {
    EscapeIsHarmless(data);
    EscapeIsHarmless(Check(sum32, wide, data + [end]));
    assert DataBody(sum32, data, end, wide) + [] == DataBody(sum32, data, end, wide);
  }

  lemma {:induction false} DigitsAreLower(b: bytes)
    ensures forall x | x in HexEncode(b) :: 48 <= x < 58 || 97 <= x < 103
  {
    if b != [] {
      DigitsAreLower(b[1..]);
    }
  }

  /** A header: its magic, fourteen digits, a line end, and XON behind all but an acknowledgement and a farewell. */
  lemma HeaderIsWritten(h: Header)
    ensures var s := EncodeHeader(h);
            && |s| == (if h.kind == 3 || h.kind == 8 then 20 else 21)
            && s[..4] == [42, 42, 24, 66] && s[18..20] == [13, 10] && (|s| == 21 ==> s[20] == 17)
            && forall i | 4 <= i < 18 :: 48 <= s[i] < 58 || 97 <= s[i] < 103
  {
    hide HexEncode, RawHeader;
    var digits := HexEncode(RawHeader(h));
    DigitsAreLower(RawHeader(h));
    assert |digits| == 14;
    assert EncodeHeader(h) == MAGIC + digits + [CR, LF] + HeaderTail(h);
    assert forall i | 4 <= i < 18 :: EncodeHeader(h)[i] == digits[i - 4] && digits[i - 4] in digits;
  }

  /** What the byte behind a ZDLE stands for in a header or a checksum. */
  lemma EscapeMeans(v: byte, s: bytes)
    requires v != 17 && v != 19
    ensures Escaped([24, v] + s)
            == Parsed(if v == 108 then Ok(127) else if v == 109 then Ok(255)
                      else if 64 <= v < 96 || 192 <= v < 224 then Ok(v - 64)
                      else if v == 24 then Err(Cancelled) else Err(BadEscape), s)
  {
    assert ([24, v] + s)[1..] == [v] + s && ([v] + s)[1..] == s;
  }

  /** In a payload it may also be an end marker. */
  lemma TokenMeans(v: byte, s: bytes)
    requires v != 17 && v != 19
    ensures ReadToken([24, v] + s)
            == if 104 <= v <= 107 then Parsed(Ok(Mark(v)), s)
               else
                 var p := Escaped([24, v] + s);
                 Parsed(if p.result.Ok? then Ok(Value(p.result.value)) else Err(p.result.error), s)
  {
    assert ([24, v] + s)[1..] == [v] + s && ([v] + s)[1..] == s;
  }

  /**
   After a good hexadecimal header only a carriage return with a newline is taken;
   a stream that ends there is an error.
   */
  lemma LineEndIs(h: Header, s: bytes)
    ensures LineEnd(h, s)
            == if s == [] || s == [13] then Parsed(Err(EndOfStream), [])
               else if s[0] == 13 && (s[1] == 10 || s[1] == 138) then Parsed(Ok(h), s[2..])
               else if s[0] == 13 then Parsed(Ok(h), s[1..])
               else Parsed(Ok(h), s)
  {
  }

  /** Four cancels do not end the search for a header. */
  lemma FourAreTooFew(sum32: Checksum32, v: byte, s: bytes)
    requires v != 24 && v != 17 && v != 19 && v != 42
    ensures ReadHeader(sum32, [24, 24, 24, 24, v] + s) == HeaderFrom(sum32, s, 5)
  {
    var all := [24, 24, 24, 24, v] + s;
    assert all[1..] == [24, 24, 24, v] + s;
    TurnPasses(sum32, 24, [24, 24, 24, v] + s, 0);
    assert [24] + ([24, 24, 24, v] + s) == all;
    TurnPasses(sum32, 24, [24, 24, v] + s, 1);
    assert [24] + ([24, 24, v] + s) == [24, 24, 24, v] + s;
    TurnPasses(sum32, 24, [24, v] + s, 2);
    assert [24] + ([24, v] + s) == [24, 24, v] + s;
    TurnPasses(sum32, 24, [v] + s, 3);
    assert [24] + ([v] + s) == [24, v] + s;
    TurnPasses(sum32, v, s, 4);
  }

  lemma TurnPasses(sum32: Checksum32, v: byte, s: bytes, skipped: nat)
    requires skipped < 65536 && v != 42 && v != 17 && v != 19 && !(v == 24 && FourCancels(s))
    ensures HeaderFrom(sum32, [v] + s, skipped) == HeaderFrom(sum32, s, skipped + 1)
  {
    assert ([v] + s)[1..] == s;
  }
}
