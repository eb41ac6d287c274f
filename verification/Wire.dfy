/**
 The byte grammar of the ZMODEM codec: what the writers emit and what the readers make of
 an arbitrary stream. Readers are functions from the unread stream to an outcome and the
 part left unread, also when they fail.
 */
module Wire {
  import opened Bytes
  import opened Crc16

  const XON: byte := 0x11
  const XOFF: byte := 0x13
  const ZDLE: byte := 0x18
  const STAR: byte := 42
  const CR: byte := 13
  const LF: byte := 10

  const ZRQINIT: byte := 0
  const ZRINIT: byte := 1
  const ZSINIT: byte := 2
  const ZACK: byte := 3
  const ZFILE: byte := 4
  const ZSKIP: byte := 5
  const ZNAK: byte := 6
  const ZABORT: byte := 7
  const ZFIN: byte := 8
  const ZRPOS: byte := 9
  const ZDATA: byte := 10
  const ZEOF: byte := 11
  const ZFERR: byte := 12
  const ZCRC: byte := 13

  /** End markers of a data subpacket: 'h', 'i', 'j', 'k'. */
  const ZCRCE: byte := 104
  const ZCRCG: byte := 105
  const ZCRCQ: byte := 106
  const ZCRCW: byte := 107

  type Marker = v: byte | ZCRCE <= v <= ZCRCW witness ZCRCE

  const MAX_SUBPACKET: nat := 1024 * 1024
  const MAX_SKIPPED: nat := 65536

  /** A 32-bit word as its four bytes, least significant first. */
  type Quad = q: bytes | |q| == 4 witness [0, 0, 0, 0]

  /** The 32-bit checksum comes from a library; every function of the right type is allowed. */
  type Checksum32 = bytes -> Quad

  datatype Header = Header(kind: byte, data: Quad, wide: bool)

  datatype Error = EndOfStream | Cancelled | BadEscape | BadHex | BadChecksum | TooLarge | NotFound

  datatype Result<+T> = Ok(value: T) | Err(error: Error)

  /** What a reader made of a stream, and what it left of it. */
  datatype Parsed<+T> = Parsed(result: Result<T>, rest: bytes)

  predicate Flow(v: byte) { v == XON || v == XOFF }

  /** v & 0x60, in units of 0x20 */
  function Column(v: byte): nat { (v / 32) % 4 }

  // ---------------------------------------------------------------- writers

  function HexDigit(n: nat): byte
    requires n < 16
  {
    if n < 10 then 48 + n else 87 + n
  }

  function HexEncode(b: bytes): (h: bytes)
    ensures |h| == 2 * |b|
  {
    if b == [] then [] else [HexDigit(b[0] / 16), HexDigit(b[0] % 16)] + HexEncode(b[1..])
  }

  function RawHeader(h: Header): (raw: bytes)
    ensures |raw| == 7
  {
    var body := [h.kind] + h.data;
    body + Digits(Crc(body))
  }

  const MAGIC: bytes := [STAR, STAR, ZDLE, 66]

  /** The flow-control byte that follows most headers. */
  function HeaderTail(h: Header): bytes {
    if h.kind != ZFIN && h.kind != ZACK then [XON] else []
  }

  function EncodeHeader(h: Header): bytes {
    MAGIC + (HexEncode(RawHeader(h)) + ([CR, LF] + HeaderTail(h)))
  }

  function Escape1(v: byte): bytes {
    if v == 0x7f then [ZDLE, 108]
    else if v == 0xff then [ZDLE, 109]
    else if Column(v) == 0 then [ZDLE, v + 64]
    else [v]
  }

  function Escape(b: bytes): bytes {
    if b == [] then [] else Escape1(b[0]) + Escape(b[1..])
  }

  function Check(sum32: Checksum32, wide: bool, m: bytes): (c: bytes)
    ensures |c| == if wide then 4 else 2
  {
    if wide then sum32(m) else Digits(Crc(m))
  }

  /** A subpacket without the flow-control byte that may follow it. */
  function DataBody(sum32: Checksum32, data: bytes, end: Marker, wide: bool): bytes {
    Escape(data) + ([ZDLE, end] + Escape(Check(sum32, wide, data + [end])))
  }

  function DataTail(end: Marker): bytes {
    if end == ZCRCW then [XON] else []
  }

  function EncodeData(sum32: Checksum32, data: bytes, end: Marker, wide: bool): bytes {
    DataBody(sum32, data, end, wide) + DataTail(end)
  }

  /** Eight CANs and eight backspaces, written by a side that gives up. */
  const CANCEL: bytes := [ZDLE, ZDLE, ZDLE, ZDLE, ZDLE, ZDLE, ZDLE, ZDLE, 8, 8, 8, 8, 8, 8, 8, 8]

  // ---------------------------------------------------------------- readers

  /** The next byte that is not flow control. */
  function Raw(s: bytes): (p: Parsed<byte>)
    ensures |p.rest| <= |s| && (p.result.Ok? ==> |p.rest| < |s|)
  {
    if s == [] then Parsed(Err(EndOfStream), s)
    else if Flow(s[0]) then Raw(s[1..])
    else Parsed(Ok(s[0]), s[1..])
  }

  function Escaped(s: bytes): (p: Parsed<byte>)
    ensures |p.rest| <= |s| && (p.result.Ok? ==> |p.rest| < |s|)
  {
    var b := Raw(s);
    if b.result.Err? || b.result.value != ZDLE then b else
    var v := Raw(b.rest);
    if v.result.Err? then v
    else if v.result.value == 108 then Parsed(Ok(0x7f), v.rest)
    else if v.result.value == 109 then Parsed(Ok(0xff), v.rest)
    else if v.result.value == ZDLE then Parsed(Err(Cancelled), v.rest)
    else if Column(v.result.value) == 2 then Parsed(Ok(v.result.value - 64), v.rest)
    else Parsed(Err(BadEscape), v.rest)
  }

  /** `n` escaped bytes after those already in `got`. */
  function EscapedMany(s: bytes, n: nat, got: bytes): (p: Parsed<bytes>)
    ensures |p.rest| <= |s|
    ensures p.result.Ok? ==> |p.result.value| == |got| + n
    decreases n
  {
    if n == 0 then Parsed(Ok(got), s) else
    var b := Escaped(s);
    match b.result
    case Err(e) => Parsed(Err(e), b.rest)
    case Ok(v) => EscapedMany(b.rest, n - 1, got + [v])
  }

  function DataEnd(sum32: Checksum32, wide: bool, s: bytes, data: bytes, end: Marker)
      : (p: Parsed<(bytes, Marker)>)
    ensures |p.rest| <= |s|
  {
    var c := EscapedMany(s, if wide then 4 else 2, []);
    match c.result
    case Err(e) => Parsed(Err(e), c.rest)
    case Ok(check) =>
      if Check(sum32, wide, data + [end]) == check then Parsed(Ok((data, end)), c.rest)
      else Parsed(Err(BadChecksum), c.rest)
  }

  datatype Token = Value(v: byte) | Mark(end: Marker)

  /** One payload byte or the end marker. */
  function ReadToken(s: bytes): (p: Parsed<Token>)
    ensures |p.rest| <= |s| && (p.result.Ok? ==> |p.rest| < |s|)
  {
    var b := Raw(s);
    if b.result.Err? then Parsed(Err(b.result.error), b.rest)
    else if b.result.value != ZDLE then Parsed(Ok(Value(b.result.value)), b.rest) else
    var v := Raw(b.rest);
    if v.result.Err? then Parsed(Err(v.result.error), v.rest) else
    var e := v.result.value;
    Parsed(
      if ZCRCE <= e <= ZCRCW then Ok(Mark(e))
      else if e == 108 then Ok(Value(0x7f))
      else if e == 109 then Ok(Value(0xff))
      else if e == ZDLE then Err(Cancelled)
      else if Column(e) == 2 then Ok(Value(e - 64))
      else Err(BadEscape),
      v.rest)
  }

  /** The subpacket reader, with `data` read so far. */
  function DataFrom(sum32: Checksum32, wide: bool, s: bytes, data: bytes)
      : (p: Parsed<(bytes, Marker)>)
    ensures |p.rest| <= |s| && (p.result.Ok? ==> |p.rest| < |s|)
    decreases |s|
  {
    if |data| > MAX_SUBPACKET then Parsed(Err(TooLarge), s) else
    var t := ReadToken(s);
    match t.result
    case Err(e) => Parsed(Err(e), t.rest)
    case Ok(Value(v)) => DataFrom(sum32, wide, t.rest, data + [v])
    case Ok(Mark(end)) => DataEnd(sum32, wide, t.rest, data, end)
  }

  function ReadData(sum32: Checksum32, wide: bool, s: bytes): Parsed<(bytes, Marker)> {
    DataFrom(sum32, wide, s, [])
  }

  datatype Option<+T> = None | Some(value: T)

  function HexValue(v: byte): (n: Option<nat>)
    ensures n.Some? ==> n.value < 16
  {
    if 48 <= v <= 57 then Some(v - 48)
    else if 97 <= v <= 102 then Some(v - 87)
    else if 65 <= v <= 70 then Some(v - 55)
    else None
  }

  function HexDecode(b: bytes): (r: Option<bytes>)
    requires |b| % 2 == 0
    ensures r.Some? ==> |r.value| == |b| / 2
  {
    if b == [] then Some([]) else
    var high, low := HexValue(b[0]), HexValue(b[1]);
    var tail := HexDecode(b[2..]);
    if high.None? || low.None? || tail.None? then None
    else Some([16 * high.value + low.value] + tail.value)
  }

  /** Skip the stars after the first; the first other byte decides. */
  function SkipStars(s: bytes): (p: Parsed<byte>)
    ensures |p.rest| <= |s| && (p.result.Ok? ==> |p.rest| < |s|)
    decreases |s|
  {
    var b := Raw(s);
    if b.result.Ok? && b.result.value == STAR then SkipStars(b.rest) else b
  }

  function Checked(sum32: Checksum32, wide: bool, raw: bytes, rest: bytes): (p: Parsed<Header>)
    requires |raw| == if wide then 9 else 7
    ensures p.rest == rest
  {
    if Check(sum32, wide, raw[..5]) == raw[5..]
    then Parsed(Ok(Header(raw[0], raw[1..5], wide)), rest)
    else Parsed(Err(BadChecksum), rest)
  }

  /** A carriage return and a newline after a hex header are taken with it. */
  function LineEnd(h: Header, s: bytes): (p: Parsed<Header>)
    ensures |p.rest| <= |s|
  {
    if s == [] then Parsed(Err(EndOfStream), s)
    else if s[0] != CR then Parsed(Ok(h), s)
    else if |s| == 1 then Parsed(Err(EndOfStream), [])
    else if s[1] % 128 != LF then Parsed(Ok(h), s[1..])
    else Parsed(Ok(h), s[2..])
  }

  function HexBody(sum32: Checksum32, s: bytes): (p: Parsed<Header>)
    ensures |p.rest| <= |s|
  {
    if |s| < 14 then Parsed(Err(EndOfStream), []) else
    match HexDecode(s[..14])
    case None => Parsed(Err(BadHex), s[14..])
    case Some(raw) =>
      var h := Checked(sum32, false, raw, s[14..]);
      if h.result.Err? then h else LineEnd(h.result.value, h.rest)
  }

  function BinaryBody(sum32: Checksum32, wide: bool, s: bytes): (p: Parsed<Header>)
    ensures |p.rest| <= |s|
  {
    var raw := EscapedMany(s, if wide then 9 else 7, []);
    match raw.result
    case Err(e) => Parsed(Err(e), raw.rest)
    case Ok(b) => Checked(sum32, wide, b, raw.rest)
  }

  predicate FourCancels(s: bytes) {
    |s| >= 4 && s[0] == ZDLE && s[1] == ZDLE && s[2] == ZDLE && s[3] == ZDLE
  }

  /** The header reader after `skipped` turns of its search. */
  function HeaderFrom(sum32: Checksum32, s: bytes, skipped: nat): (p: Parsed<Header>)
    requires skipped <= MAX_SKIPPED
    ensures |p.rest| <= |s| && (p.result.Ok? ==> |p.rest| < |s|)
    decreases |s|
  {
    if skipped == MAX_SKIPPED then Parsed(Err(NotFound), s) else
    var b := Raw(s);
    if b.result.Err? then Parsed(Err(b.result.error), b.rest)
    else if b.result.value == ZDLE && FourCancels(b.rest) then Parsed(Err(Cancelled), b.rest)
    else if b.result.value != STAR then HeaderFrom(sum32, b.rest, skipped + 1) else
    var d := SkipStars(b.rest);
    if d.result.Err? then Parsed(Err(d.result.error), d.rest)
    else if d.result.value != ZDLE then HeaderFrom(sum32, d.rest, skipped + 1) else
    var k := Raw(d.rest);
    if k.result.Err? then Parsed(Err(k.result.error), k.rest)
    else if k.result.value == 66 then HexBody(sum32, k.rest)
    else if k.result.value == 65 then BinaryBody(sum32, false, k.rest)
    else if k.result.value == 67 then BinaryBody(sum32, true, k.rest)
    else HeaderFrom(sum32, k.rest, skipped + 1)
  }

  function ReadHeader(sum32: Checksum32, s: bytes): (p: Parsed<Header>)
    ensures |p.rest| <= |s| && (p.result.Ok? ==> |p.rest| < |s|)
  {
    HeaderFrom(sum32, s, 0)
  }
}
