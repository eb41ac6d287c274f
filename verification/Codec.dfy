/** The codec object: a cursor in the incoming stream and the bytes written so far. */
module Codec {
  import opened Bytes
  import opened Crc16
  import opened Wire

  class Codec {
    /** Everything the peer ever sends, and how much of it has been read. */
    const stream: bytes
    var at: nat

    /** Everything written to the peer. */
    var sent: bytes

    const sum32: Checksum32

    ghost predicate Valid()
      reads this
    {
      at <= |stream|
    }

    ghost function Rest(): (r: bytes)
      requires Valid()
      reads this
      ensures |r| == |stream| - at
    {
      stream[at..]
    }

    constructor (stream: bytes, sum32: Checksum32)
      ensures Valid() && this.stream == stream && this.sum32 == sum32
      ensures Rest() == stream && sent == []
    {
      this.stream := stream;
      this.sum32 := sum32;
      this.at := 0;
      this.sent := [];
    }

    method ReadByte() returns (r: Result<byte>)
      requires Valid()
      modifies this`at
      ensures Valid()
      ensures old(Rest()) == [] ==> r == Err(EndOfStream) && Rest() == []
      ensures old(Rest()) != [] ==> r == Ok(old(Rest())[0]) && Rest() == old(Rest())[1..] && at == old(at) + 1
    {
      if at == |stream| {
        return Err(EndOfStream);
      }
      r := Ok(stream[at]);
      at := at + 1;
    }

    method ReadRaw() returns (r: Result<byte>)
      requires Valid()
      modifies this`at
      ensures Valid() && Parsed(r, Rest()) == Raw(old(Rest()))
    {
      while true
        invariant Valid() && Raw(Rest()) == Raw(old(Rest()))
        decreases |stream| - at
      {
        r := ReadByte();
        if r.Err? || !Flow(r.value) {
          return;
        }
      }
    }

    method ReadEscaped() returns (r: Result<byte>)
      requires Valid()
      modifies this`at
      ensures Valid() && Parsed(r, Rest()) == Escaped(old(Rest()))
    {
      r := ReadRaw();
      if r.Err? || r.value != ZDLE {
        return;
      }
      r := ReadRaw();
      if r.Err? {
        return;
      }
      var v := r.value;
      if v == 108 {
        r := Ok(0x7f);
      } else if v == 109 {
        r := Ok(0xff);
      } else if v == ZDLE {
        r := Err(Cancelled);
      } else if Column(v) == 2 {
        r := Ok(v - 64);
      } else {
        r := Err(BadEscape);
      }
    }

    method ReadEscapedMany(n: nat) returns (r: Result<bytes>)
      requires Valid()
      modifies this`at
      ensures Valid() && Parsed(r, Rest()) == EscapedMany(old(Rest()), n, [])
    {
      var got: bytes := [];
      for i := 0 to n
        invariant Valid()
        invariant EscapedMany(Rest(), n - i, got) == EscapedMany(old(Rest()), n, [])
      {
        var b := ReadEscaped();
        if b.Err? {
          return Err(b.error);
        }
        got := got + [b.value];
      }
      r := Ok(got);
    }

    method ReadDataEnd(wide: bool, data: bytes, end: Marker) returns (r: Result<(bytes, Marker)>)
      requires Valid()
      modifies this`at
      ensures Valid() && Parsed(r, Rest()) == DataEnd(sum32, wide, old(Rest()), data, end)
    {
      var c := ReadEscapedMany(if wide then 4 else 2);
      if c.Err? {
        return Err(c.error);
      }
      var expected: bytes;
      if wide {
        expected := sum32(data + [end]);
      } else {
        var crc := CRC16(data + [end]);
        expected := Digits(crc);
      }
      r := if expected == c.value then Ok((data, end)) else Err(BadChecksum);
    }

    /** One turn of the subpacket loop: a payload byte or the end marker. */
    method NextToken() returns (r: Result<Token>)
      requires Valid()
      modifies this`at
      ensures Valid() && Parsed(r, Rest()) == ReadToken(old(Rest()))
    {
      var b := ReadRaw();
      if b.Err? {
        return Err(b.error);
      }
      if b.value != ZDLE {
        return Ok(Value(b.value));
      }
      var v := ReadRaw();
      if v.Err? {
        return Err(v.error);
      }
      if ZCRCE <= v.value <= ZCRCW {
        r := Ok(Mark(v.value));
      } else if v.value == 108 {
        r := Ok(Value(0x7f));
      } else if v.value == 109 {
        r := Ok(Value(0xff));
      } else if v.value == ZDLE {
        r := Err(Cancelled);
      } else if Column(v.value) != 2 {
        r := Err(BadEscape);
      } else {
        r := Ok(Value(v.value - 64));
      }
    }

    method ReadSubpacket(wide: bool) returns (r: Result<(bytes, Marker)>)
      requires Valid()
      modifies this`at
      ensures Valid() && Parsed(r, Rest()) == ReadData(sum32, wide, old(Rest()))
    {
      var data: bytes := [];
      while |data| <= MAX_SUBPACKET
        invariant Valid()
        invariant DataFrom(sum32, wide, Rest(), data) == ReadData(sum32, wide, old(Rest()))
        decreases |Rest()|
      {
        var t := NextToken();
        if t.Err? {
          return Err(t.error);
        }
        match t.value
        case Value(v) =>
          data := data + [v];
        case Mark(end) =>
          r := ReadDataEnd(wide, data, end);
          return;
      }
      r := Err(TooLarge);
    }

    method ReadStars() returns (r: Result<byte>)
      requires Valid()
      modifies this`at
      ensures Valid() && Parsed(r, Rest()) == SkipStars(old(Rest()))
    {
      while true
        invariant Valid() && SkipStars(Rest()) == SkipStars(old(Rest()))
        decreases |Rest()|
      {
        r := ReadRaw();
        if r.Err? || r.value != STAR {
          return;
        }
      }
    }

    method CheckHeader(wide: bool, raw: bytes) returns (r: Result<Header>)
      requires Valid() && |raw| == if wide then 9 else 7
      ensures Parsed(r, Rest()) == Checked(sum32, wide, raw, Rest())
    {
      var expected: bytes;
      if wide {
        expected := sum32(raw[..5]);
      } else {
        var crc := CRC16(raw[..5]);
        expected := Digits(crc);
      }
      r := if expected == raw[5..] then Ok(Header(raw[0], raw[1..5], wide)) else Err(BadChecksum);
    }

    method ReadBinary(wide: bool) returns (r: Result<Header>)
      requires Valid()
      modifies this`at
      ensures Valid() && Parsed(r, Rest()) == BinaryBody(sum32, wide, old(Rest()))
    {
      var raw := ReadEscapedMany(if wide then 9 else 7);
      if raw.Err? {
        return Err(raw.error);
      }
      r := CheckHeader(wide, raw.value);
    }

    method ReadLineEnd(h: Header) returns (r: Result<Header>)
      requires Valid()
      modifies this`at
      ensures Valid() && Parsed(r, Rest()) == LineEnd(h, old(Rest()))
    {
      var b := ReadByte();
      if b.Err? {
        return Err(b.error);
      }
      if b.value != CR {
        at := at - 1;
        return Ok(h);
      }
      b := ReadByte();
      if b.Err? {
        return Err(b.error);
      }
      if b.value % 128 != LF {
        at := at - 1;
      }
      r := Ok(h);
    }

    method ReadHex() returns (r: Result<Header>)
      requires Valid()
      modifies this`at
      ensures Valid() && Parsed(r, Rest()) == HexBody(sum32, old(Rest()))
    {
      if |stream| - at < 14 {
        at := |stream|;
        return Err(EndOfStream);
      }
      var raw := HexDecode(stream[at..at + 14]);
      assert stream[at..at + 14] == Rest()[..14];
      at := at + 14;
      if raw.None? {
        return Err(BadHex);
      }
      r := CheckHeader(false, raw.value);
      if r.Ok? {
        r := ReadLineEnd(r.value);
      }
    }

    method PeekCancel() returns (cancelled: bool)
      requires Valid()
      ensures cancelled == FourCancels(Rest())
    {
      cancelled := at + 4 <= |stream|
        && stream[at] == ZDLE && stream[at + 1] == ZDLE && stream[at + 2] == ZDLE && stream[at + 3] == ZDLE;
    }

    method ReadFrameHeader() returns (r: Result<Header>)
      requires Valid()
      modifies this`at
      ensures Valid() && Parsed(r, Rest()) == ReadHeader(sum32, old(Rest()))
    {
      var skipped := 0;
      while skipped < MAX_SKIPPED
        invariant Valid() && skipped <= MAX_SKIPPED
        invariant HeaderFrom(sum32, Rest(), skipped) == ReadHeader(sum32, old(Rest()))
      {
        var b := ReadRaw();
        if b.Err? {
          return Err(b.error);
        }
        if b.value == ZDLE {
          var cancelled := PeekCancel();
          if cancelled {
            return Err(Cancelled);
          }
        }
        if b.value == STAR {
          b := ReadStars();
          if b.Err? {
            return Err(b.error);
          }
          if b.value == ZDLE {
            b := ReadRaw();
            if b.Err? {
              return Err(b.error);
            }
            if b.value == 66 {
              r := ReadHex();
              return;
            } else if b.value == 65 || b.value == 67 {
              r := ReadBinary(b.value == 67);
              return;
            }
          }
        }
        skipped := skipped + 1;
      }
      r := Err(NotFound);
    }

    // -------------------------------------------------------------- writing

    method EscapeBytes(b: bytes) returns (out: bytes)
      ensures out == Escape(b)
    {
      out := [];
      for k := 0 to |b|
        invariant out + Escape(b[k..]) == Escape(b)
      {
        var v := b[k];
        assert b[k..][1..] == b[k + 1..];
        assert out + Escape(b[k..]) == (out + Escape1(v)) + Escape(b[k + 1..]);
        if v == 0x7f {
          out := out + [ZDLE, 108];
        } else if v == 0xff {
          out := out + [ZDLE, 109];
        } else if Column(v) == 0 {
          out := out + [ZDLE, v + 64];
        } else {
          out := out + [v];
        }
      }
    }

    method WriteHeader(h: Header)
      modifies this`sent
      ensures sent == old(sent) + EncodeHeader(h)
    {
      var raw := [h.kind] + h.data;
      var crc := CRC16(raw);
      raw := raw + Digits(crc);
      var b := MAGIC + HexEncode(raw);
      b := b + [CR, LF];
      if h.kind != ZFIN && h.kind != ZACK {
        b := b + [XON];
      }
      assert b == EncodeHeader(h);
      sent := sent + b;
    }

    method WriteData(data: bytes, end: Marker, wide: bool)
      modifies this`sent
      ensures sent == old(sent) + EncodeData(sum32, data, end, wide)
    {
      hide Escape, Crc, Digits;
      var checked := data + [end];
      var b := EscapeBytes(data);
      b := b + [ZDLE, end];
      var checksum: bytes;
      if wide {
        checksum := sum32(checked);
      } else {
        var crc := CRC16(checked);
        checksum := Digits(crc);
      }
      var c := EscapeBytes(checksum);
      b := b + c;
      if end == ZCRCW {
        b := b + [XON];
      }
      assert b == EncodeData(sum32, data, end, wide);
      sent := sent + b;
    }

    method Cancel()
      modifies this`sent
      ensures sent == old(sent) + CANCEL
    {
      sent := sent + CANCEL;
    }
  }
}
