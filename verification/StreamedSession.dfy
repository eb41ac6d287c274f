/** A whole session with a peer of another make, on bytes. */
module StreamedSession {
  import opened Bytes
  import opened Crc16
  import opened Wire
  import opened RoundTrip
  import opened Metadata
  import opened Sending
  import opened Receiving
  import opened Session
  import opened Driving
  import opened OnTheWire
  import opened Streaming
  import C = Codec
  import T = Transfer

  // -------------------------------------------------------------- its messages

  /** A file, and how what is not there yet is cut up. */
  datatype Streamed = Streamed(name: bytes, content: bytes, frames: seq<seq<Part>>)

  function There(dir: Dir, f: Streamed): bytes { ContentOf(dir, f.name) }

  /** A good name, nothing but a beginning of the file in the way, and the rest in frames. */
  predicate Acceptable(dir: Dir, f: Streamed) {
    && StaysInside(f.name) && |f.name| <= 0x1_0000 && |f.content| <= MAX_SIZE
    && (f.name in dir ==> dir[f.name].Regular?)
    && There(dir, f) <= f.content && AreFrames(f.frames) && AllContent(f.frames) == f.content[|There(dir, f)|..]
  }

  function FileMsgs(sum: Sum32, dir: Dir, f: Streamed): seq<Msg> {
    var there := There(dir, f);
    [Control(Head(ZFILE, 0)), Packet(Format(f.name, |f.content|), ZCRCW)]
    + (if there == [] then [] else [Control(Head(ZCRC, sum(there)))])
    + (Frames(f.frames, |there|) + [Control(Head(ZEOF, Cut(|f.content|)))])
  }

  function FileAnswers(dir: Dir, f: Streamed): seq<Head> {
    var there := There(dir, f);
    (if there == [] then [] else [Head(ZCRC, Cut(|there|))])
    + [Head(ZRPOS, Cut(|there|))] + (AllAnswers(f.frames, |there|) + [READY])
  }

  function With(dir: Dir, f: Streamed): Dir { dir[f.name := Regular(f.content)] }

  predicate AllAcceptable(dir: Dir, files: seq<Streamed>)
    decreases |files|
  {
    files != [] ==> Acceptable(dir, files[0]) && AllAcceptable(With(dir, files[0]), files[1..])
  }

  function FilesMsgs(sum: Sum32, dir: Dir, files: seq<Streamed>): seq<Msg>
    decreases |files|
  {
    if files == [] then [] else FileMsgs(sum, dir, files[0]) + FilesMsgs(sum, With(dir, files[0]), files[1..])
  }

  function FilesAnswers(dir: Dir, files: seq<Streamed>): seq<Head>
    decreases |files|
  {
    if files == [] then [] else FileAnswers(dir, files[0]) + FilesAnswers(With(dir, files[0]), files[1..])
  }

  function WithAll(dir: Dir, files: seq<Streamed>): Dir
    decreases |files|
  {
    if files == [] then dir else WithAll(With(dir, files[0]), files[1..])
  }

  const GREETING := [Control(Head(ZRQINIT, 0))]
  const FAREWELL := [Control(Head(ZFIN, 0)), Octet(79), Octet(79)]

  function SessionMsgs(sum: Sum32, dir: Dir, files: seq<Streamed>): seq<Msg> {
    GREETING + FilesMsgs(sum, dir, files) + FAREWELL
  }

  function SessionAnswers(dir: Dir, files: seq<Streamed>): seq<Head> {
    [READY] + FilesAnswers(dir, files) + [Head(ZFIN, 0)]
  }

  // ---------------------------------------------------------------- reactions

  /** Between two files. */
  predicate Between(r: Receiver, dir: Dir) { r.phase.Ready? && !r.open && r.dir == dir }

  /** Metadata for a file that is not there, or for one whose beginning is. */
  lemma MetaArrives(sum: Sum32, r: Receiver, dir: Dir, f: Streamed)
    requires Acceptable(dir, f) && r.dir == dir && r.phase.Meta?
    ensures var t := Receiving.Step(sum, r, GotData(Format(f.name, |f.content|), ZCRCW));
            var there := There(dir, f);
            && t.state.name == f.name && t.state.size == |f.content| && t.state.position == |there|
            && (there == [] ==>
                  t.out == [Head(ZRPOS, 0)] && t.state.phase.Ready? && t.state.open
                  && t.state.dir == dir[f.name := Regular([])])
            && (there != [] ==>
                  && t.out == [Head(ZCRC, Cut(|there|))] && t.state.dir == dir && t.state.open == r.open
                  && t.state.phase == Resuming(Format(f.name, |f.content|), 0, sum(there)))
  {
    hide Parse, Format, AreFrames, AllContent;
    MetadataRoundTrip(f.name, |f.content|);
  }

  /** The peer shows that it knows what is there. */
  lemma ChecksumArrives(sum: Sum32, r: Receiver, there: bytes)
    requires r.phase.Resuming? && r.phase.digest == sum(there) && r.position == |there|
    ensures Receiving.Step(sum, r, GotHead(Head(ZCRC, sum(there))))
            == Reply(r.(phase := Phase.Ready, open := true), [Head(ZRPOS, Cut(|there|))])
  {
  }

  function Opening(sum: Sum32, dir: Dir, f: Streamed): seq<Msg> {
    [Control(Head(ZFILE, 0)), Packet(Format(f.name, |f.content|), ZCRCW)]
    + (if There(dir, f) == [] then [] else [Control(Head(ZCRC, sum(There(dir, f))))])
  }

  function OpeningAnswers(dir: Dir, f: Streamed): seq<Head> {
    (if There(dir, f) == [] then [] else [Head(ZCRC, Cut(|There(dir, f)|))]) + [Head(ZRPOS, Cut(|There(dir, f)|))]
  }

  lemma FileOpens(sum: Sum32, r: Receiver, dir: Dir, f: Streamed)
    requires Acceptable(dir, f) && Between(r, dir)
    ensures var t := Reacts(sum, r, Opening(sum, dir, f));
            && Takes(sum, r, Opening(sum, dir, f)) && t.out == OpeningAnswers(dir, f)
            && t.state.phase.Ready? && t.state.name == f.name && Holds(t.state, f.content, |There(dir, f)|)
            && t.state.dir[f.name := Regular(f.content)] == With(dir, f)
  {
    hide Receiving.Step, Format, Takes, Reacts, Acceptable;
    AcceptableMeans(dir, f);
    var there := There(dir, f);
    var zfile, meta := Control(Head(ZFILE, 0)), Packet(Format(f.name, |f.content|), ZCRCW);
    FileBegins(sum, r);
    var r1 := r.(phase := Meta);
    MetaArrives(sum, r1, dir, f);
    var t := Receiving.Step(sum, r1, Arrives(meta));
    var more := if there == [] then [] else [Control(Head(ZCRC, sum(there)))];
    if there == [] {
      NothingMore(sum, t.state);
    } else {
      ChecksumArrives(sum, t.state, there);
      OneMessage(sum, t.state, Control(Head(ZCRC, sum(there))));
    }
    MessageThen(sum, r1, meta, more);
    MessageThen(sum, r, zfile, [meta] + more);
    assert Opening(sum, dir, f) == [zfile] + ([meta] + more);
    assert f.content[..|there|] == there;
    assert dir[f.name := Regular([])][f.name := Regular(f.content)] == With(dir, f);
  }

  lemma AcceptableMeans(dir: Dir, f: Streamed)
    requires Acceptable(dir, f)
    ensures There(dir, f) <= f.content && |f.content| <= MAX_SIZE
    ensures There(dir, f) != [] ==> f.name in dir && dir[f.name] == Regular(There(dir, f))
    ensures AreFrames(f.frames) && AllContent(f.frames) == f.content[|There(dir, f)|..]
  {
  }

  lemma FileBegins(sum: Sum32, r: Receiver)
    requires r.phase.Ready?
    ensures Receiving.Step(sum, r, GotHead(Head(ZFILE, 0))) == Reply(r.(phase := Meta), [])
  {
  }

  /** One file, from its name to its end. */
  lemma FileArrives(sum: Sum32, r: Receiver, dir: Dir, f: Streamed)
    requires Acceptable(dir, f) && Between(r, dir)
    ensures var t := Reacts(sum, r, FileMsgs(sum, dir, f));
            && Takes(sum, r, FileMsgs(sum, dir, f)) && t.out == FileAnswers(dir, f) && Between(t.state, With(dir, f))
  {
    hide Receiving.Step, Takes, Reacts, Acceptable, Format, Frames, AllAnswers;
    FileOpens(sum, r, dir, f);
    AcceptableMeans(dir, f);
    var there := There(dir, f);
    var begun := Reacts(sum, r, Opening(sum, dir, f));
    StreamArrives(sum, begun.state, f.frames, f.content, |there|);
    var rest := Frames(f.frames, |there|) + [Control(Head(ZEOF, Cut(|f.content|)))];
    ReactsConcat(sum, r, Opening(sum, dir, f), rest);
    assert FileMsgs(sum, dir, f) == Opening(sum, dir, f) + rest;
    assert FileAnswers(dir, f) == OpeningAnswers(dir, f) + (AllAnswers(f.frames, |there|) + [READY]);
  }

  lemma {:induction false} FilesArrive(sum: Sum32, r: Receiver, dir: Dir, files: seq<Streamed>)
    requires AllAcceptable(dir, files) && Between(r, dir)
    ensures var t := Reacts(sum, r, FilesMsgs(sum, dir, files));
            && Takes(sum, r, FilesMsgs(sum, dir, files)) && t.out == FilesAnswers(dir, files)
            && Between(t.state, WithAll(dir, files))
    decreases |files|
  {
    hide Acceptable, Takes, Reacts, FileMsgs, FileAnswers, With;
    if files == [] {
      NothingMore(sum, r);
    } else {
      FileArrives(sum, r, dir, files[0]);
      var t := Reacts(sum, r, FileMsgs(sum, dir, files[0]));
      FilesArrive(sum, t.state, With(dir, files[0]), files[1..]);
      ReactsConcat(sum, r, FileMsgs(sum, dir, files[0]), FilesMsgs(sum, With(dir, files[0]), files[1..]));
    }
  }

  /** Two letters end the session. */
  lemma EndArrives(sum: Sum32, r: Receiver, dir: Dir)
    requires Between(r, dir)
    ensures Takes(sum, r, FAREWELL)
    ensures Reacts(sum, r, FAREWELL) == Reply(r.(phase := Finished), [Head(ZFIN, 0)])
  {
    hide Takes, Reacts;
    var fin, letter := Control(Head(ZFIN, 0)), Octet(79);
    var a, b := r.(phase := Closing(0)), r.(phase := ClosingO(0));
    OneMessage(sum, b, letter);
    MessageThen(sum, a, letter, [letter]);
    MessageThen(sum, r, fin, [letter] + [letter]);
    assert FAREWELL == [fin] + ([letter] + [letter]);
  }

  /**
   Any files, each in any frames, the beginnings of some of them there already: the session ends
   with all of them in the directory, and the peer has every answer it waits for.
   */
  lemma SessionArrives(sum: Sum32, dir: Dir, files: seq<Streamed>)
    requires AllAcceptable(dir, files)
    ensures var t := Reacts(sum, Start(dir), SessionMsgs(sum, dir, files));
            && Takes(sum, Start(dir), SessionMsgs(sum, dir, files))
            && t.state.phase.Finished? && t.state.dir == WithAll(dir, files) && t.out == SessionAnswers(dir, files)
  {
    hide Takes, Reacts, FilesMsgs, FilesAnswers, AllAcceptable;
    var r := Start(dir).(phase := Phase.Ready);
    assert Receiving.Step(sum, Start(dir), Arrives(GREETING[0])) == Reply(r, [READY]);
    OneMessage(sum, Start(dir), GREETING[0]);
    FilesArrive(sum, r, dir, files);
    var t := Reacts(sum, r, FilesMsgs(sum, dir, files));
    EndArrives(sum, t.state, WithAll(dir, files));
    ReactsConcat(sum, r, FilesMsgs(sum, dir, files), FAREWELL);
    ReactsConcat(sum, Start(dir), GREETING, FilesMsgs(sum, dir, files) + FAREWELL);
    assert SessionMsgs(sum, dir, files) == GREETING + (FilesMsgs(sum, dir, files) + FAREWELL);
    assert SessionAnswers(dir, files) == [READY] + (FilesAnswers(dir, files) + [Head(ZFIN, 0)]);
  }

  // -------------------------------------------------------------------- bytes

  /** The format of a header; with the long one the subpackets behind it have 32-bit checksums. */
  datatype Shape = Hexadecimal | Short | Long

  function WriteIn(sum32: Checksum32, wide: bool, m: Msg, shape: Shape): bytes {
    match m
    case Control(h) =>
      (match shape
       case Hexadecimal => EncodeHeader(HeaderOf(h))
       case Short => EncodeBinary(sum32, HeaderOf(h))
       case Long => EncodeBinary(sum32, HeaderOf(h).(wide := true)))
    case Packet(data, end) => EncodeData(sum32, data, end, wide)
    case Octet(v) => [v]
    case Damaged => []
  }

  function WidthBehind(wide: bool, m: Msg, shape: Shape): bool { if m.Control? then shape.Long? else wide }

  /** Messages as bytes, each header in the format that is chosen for it. */
  function AllIn(sum32: Checksum32, wide: bool, ms: seq<Msg>, shapes: seq<Shape>): bytes
    requires |ms| == |shapes|
    decreases |ms|
  {
    if ms == [] then [] else
    WriteIn(sum32, wide, ms[0], shapes[0]) + AllIn(sum32, WidthBehind(wide, ms[0], shapes[0]), ms[1..], shapes[1..])
  }

  lemma BinaryIsItself(sum32: Checksum32, h: Header)
    ensures Strip(EncodeBinary(sum32, h)) == EncodeBinary(sum32, h) && EndsClean(EncodeBinary(sum32, h))
  {
    hide Escape, Strip, Crc;
    var body := [h.kind] + h.data;
    var raw := body + if h.wide then sum32(body) else Digits(Crc(body));
    var w := EncodeBinary(sum32, h);
    var front := [STAR, ZDLE, if h.wide then 67 else 65];
    assert w == front + Escape(raw);
    forall v | v in w
      ensures !Flow(v)
    {
      if v in Escape(raw) {
        EscapeHasNoFlow(raw, v);
      }
    }
    StripNoFlow(w);
    assert w[|w| - 1] in w;
  }

  lemma BinaryReads(sum32: Checksum32, pad: bytes, h: Header, tail: bytes)
    requires Pad(pad)
    ensures ReadHeader(sum32, pad + EncodeBinary(sum32, h) + tail) == Parsed(Ok(h), tail)
  {
    hide EncodeBinary, Strip, HeaderFrom;
    BinaryIsItself(sum32, h);
    assert Turns(pad) == 0 by {
      assert pad != [] ==> pad[1..] == [];
    }
    BinaryHeaderRoundTrip(sum32, pad, h, EncodeBinary(sum32, h), tail);
  }

  lemma WidePacketReads(sum32: Checksum32, wide: bool, pad: bytes, data: bytes, end: Marker, tail: bytes)
    requires Pad(pad) && |data| <= MAX_SUBPACKET
    ensures ReadData(sum32, wide, pad + EncodeData(sum32, data, end, wide) + tail)
            == Parsed(Ok((data, end)), DataTail(end) + tail)
  {
    hide ReadData, EncodeData;
    var b := EncodeData(sum32, data, end, wide);
    EncodedDataReads(sum32, wide, data, end, tail);
    if pad == [] {
      assert pad + b + tail == b + tail;
    } else {
      assert pad + b + tail == [XON] + (b + tail);
      LeadingFlow(sum32, wide, b + tail);
    }
  }

  /** The receiver takes a header in any format, and a subpacket with the checksum of its frame. */
  lemma AnyShapeArrives(sum32: Checksum32, wide: bool, pad: bytes, p: Phase, m: Msg, shape: Shape, tail: bytes)
      returns (pad': bytes)
    requires Pad(pad) && OnTheWire.Small(m) && (m.Octet? ==> !Flow(m.v)) && Fits(p, Arrives(m))
    ensures Pad(pad') && (m.Octet? ==> pad' == [])
    ensures Take(sum32, p, wide, pad + WriteIn(sum32, wide, m, shape) + tail)
            == (Arrives(m), WidthBehind(wide, m, shape), pad' + tail)
  {
    hide ReadHeader, ReadData, EncodeData, EncodeHeader, EncodeBinary;
    pad' := [];
    assert [] + tail == tail;
    match m
    case Control(h) =>
      PositionOf(h.pos);
      if shape.Hexadecimal? {
        pad' := HeadReads(sum32, pad, h, tail);
      } else {
        BinaryReads(sum32, pad, HeaderOf(h).(wide := shape.Long?), tail);
      }
    case Packet(data, end) =>
      pad' := DataTail(end);
      WidePacketReads(sum32, wide, pad, data, end, tail);
    case Octet(v) => OctetReads(pad, v, tail);
  }

  lemma FitsOnlyRunning(p: Phase, i: Input)
    requires Fits(p, i)
    ensures !p.Finished? && !p.Stopped?
  {
  }

  /** The first of some messages, whatever is written behind it. */
  lemma FirstIsRead(
      sum32: Checksum32, wide: bool, pad: bytes, r: Receiver, m: Msg, shape: Shape, more: bytes, tail: bytes)
      returns (pad': bytes)
    requires Pad(pad) && OnTheWire.Small(m) && (m.Octet? ==> !Flow(m.v)) && Fits(r.phase, Arrives(m))
    ensures Pad(pad') && (m.Octet? ==> pad' == [])
    ensures var t := Receiving.Step(Summed(sum32), r, Arrives(m));
            Receives(sum32, r, wide, pad + (WriteIn(sum32, wide, m, shape) + more) + tail)
            == Emit(WriteHeads(t.out), Receives(sum32, t.state, WidthBehind(wide, m, shape), pad' + more + tail))
  {
    hide Receiving.Step, WriteIn, Take, Receives, WidthBehind, OnTheWire.Small, Arrives, Fits, Emit, WriteHeads, Pad;
    FitsOnlyRunning(r.phase, Arrives(m));
    var s := pad + (WriteIn(sum32, wide, m, shape) + more) + tail;
    assert s == pad + WriteIn(sum32, wide, m, shape) + (more + tail);
    pad' := AnyShapeArrives(sum32, wide, pad, r.phase, m, shape, more + tail);
    ReceivesOne(sum32, r, wide, s);
    assert pad' + (more + tail) == pad' + more + tail;
  }

  /** What is read of written messages is the reaction to them, and what is left is what follows. */
  lemma {:induction false} MessagesRead(
      sum32: Checksum32, wide: bool, pad: bytes, r: Receiver, ms: seq<Msg>, shapes: seq<Shape>, tail: bytes)
      returns (wide': bool, pad': bytes)
    requires Pad(pad) && Fitting(ms) && |shapes| == |ms| && Takes(Summed(sum32), r, ms)
    ensures Pad(pad') && (ms != [] && ms[|ms| - 1].Octet? ==> pad' == [])
    ensures var t := Reacts(Summed(sum32), r, ms);
            Receives(sum32, r, wide, pad + AllIn(sum32, wide, ms, shapes) + tail)
            == Emit(WriteHeads(t.out), Receives(sum32, t.state, wide', pad' + tail))
    decreases |ms|
  {
    hide Receiving.Step, WriteIn, Take, Receives, WidthBehind, OnTheWire.Small, Pad, Emit, WriteHeads;
    if ms == [] {
      wide', pad' := wide, pad;
      assert pad + [] + tail == pad + tail;
      EmitNothing(Receives(sum32, r, wide, pad + tail));
      NoHeads();
    } else {
      var m, shape := ms[0], shapes[0];
      assert m in ms;
      assert Fitting(ms[1..]) by {
        assert forall x | x in ms[1..] :: x in ms;
      }
      var w := WidthBehind(wide, m, shape);
      var more := AllIn(sum32, w, ms[1..], shapes[1..]);
      pad' := FirstIsRead(sum32, wide, pad, r, m, shape, more, tail);
      var t := Receiving.Step(Summed(sum32), r, Arrives(m));
      if ms[1..] == [] {
        NothingMore(Summed(sum32), t.state);
        wide' := w;
        assert pad' + more + tail == pad' + tail;
        assert t.out + [] == t.out;
      } else {
        wide', pad' := MessagesRead(sum32, w, pad', t.state, ms[1..], shapes[1..], tail);
        assert ms[1..][|ms[1..]| - 1] == ms[|ms| - 1];
        var u := Reacts(Summed(sum32), t.state, ms[1..]);
        WriteHeadsConcat(t.out, u.out);
        EmitTwice(WriteHeads(t.out), WriteHeads(u.out), Receives(sum32, u.state, wide', pad' + tail));
      }
    }
  }

  lemma NoHeads()
    ensures WriteHeads([]) == []
  {
  }

  lemma EmitNothing<S>(o: Driving.Outcome<S>)
    ensures Emit([], o) == o
  {
    assert [] + o.out == o.out;
  }

  lemma EmitTwice<S>(a: bytes, b: bytes, o: Driving.Outcome<S>)
    ensures Emit(a, Emit(b, o)) == Emit(a + b, o)
  {
    assert a + (b + o.out) == a + b + o.out;
  }

  lemma ReceivesOne(sum32: Checksum32, r: Receiver, wide: bool, s: bytes)
    requires !r.phase.Finished? && !r.phase.Stopped?
    ensures var (i, wide', rest) := Take(sum32, r.phase, wide, s);
            var t := Receiving.Step(Summed(sum32), r, i);
            Receives(sum32, r, wide, s) == Emit(WriteHeads(t.out), Receives(sum32, t.state, wide', rest))
  {
    hide Take, Receiving.Step;
  }

  // ------------------------------------------------------------------ session

  lemma {:induction false} PacketsFit(parts: seq<Part>)
    requires forall i | 0 <= i < |parts| :: |parts[i].data| <= MAX_SUBPACKET
    ensures Fitting(Packets(parts))
  {
    if parts != [] {
      var rest := parts[1..];
      assert forall i | 0 <= i < |rest| :: rest[i] == parts[i + 1];
      PacketsFit(rest);
    }
  }

  lemma FitTogether(a: seq<Msg>, b: seq<Msg>)
    requires Fitting(a) && Fitting(b)
    ensures Fitting(a + b)
  {
  }

  lemma {:induction false} FramesFit(frames: seq<seq<Part>>, at: nat)
    requires AreFrames(frames)
    ensures Fitting(Frames(frames, at))
    decreases |frames|
  {
    hide Fitting, Packets, Cut;
    if frames == [] {
      NoFrames(at);
      NothingFits();
    } else {
      MoreFrames(frames);
      FramesAre(frames, at);
      PacketsFit(frames[0]);
      HeadFits(Head(ZDATA, Cut(at)));
      FramesFit(frames[1..], at + |Content(frames[0])|);
      FitTogether([Control(Head(ZDATA, Cut(at)))], Packets(frames[0]));
      FitTogether([Control(Head(ZDATA, Cut(at)))] + Packets(frames[0]), Frames(frames[1..], at + |Content(frames[0])|));
    }
  }

  lemma NothingFits()
    ensures Fitting([])
  {
  }

  lemma HeadFits(h: Head)
    ensures Fitting([Control(h)])
  {
  }

  lemma FileFits(sum: Sum32, dir: Dir, f: Streamed)
    requires Acceptable(dir, f)
    ensures Fitting(FileMsgs(sum, dir, f))
  {
    hide Format, Frames, StaysInside, AllContent;
    var there := There(dir, f);
    MetadataSmall(Source(f.name, f.content, true));
    FramesFit(f.frames, |there|);
    FitTogether(Frames(f.frames, |there|), [Control(Head(ZEOF, Cut(|f.content|)))]);
    FitTogether(Opening(sum, dir, f), Frames(f.frames, |there|) + [Control(Head(ZEOF, Cut(|f.content|)))]);
    assert FileMsgs(sum, dir, f) == Opening(sum, dir, f) + (Frames(f.frames, |there|) + [Control(Head(ZEOF, Cut(|f.content|)))]);
  }

  lemma {:induction false} FilesFit(sum: Sum32, dir: Dir, files: seq<Streamed>)
    requires AllAcceptable(dir, files)
    ensures Fitting(FilesMsgs(sum, dir, files))
    decreases |files|
  {
    hide Fitting, FileMsgs, Acceptable;
    if files == [] {
      NothingFits();
    } else {
      FileFits(sum, dir, files[0]);
      FilesFit(sum, With(dir, files[0]), files[1..]);
      FitTogether(FileMsgs(sum, dir, files[0]), FilesMsgs(sum, With(dir, files[0]), files[1..]));
    }
  }

  lemma SessionFits(sum: Sum32, dir: Dir, files: seq<Streamed>)
    requires AllAcceptable(dir, files)
    ensures Fitting(SessionMsgs(sum, dir, files))
  {
    hide FilesMsgs, AllAcceptable;
    FilesFit(sum, dir, files);
    FitTogether(GREETING, FilesMsgs(sum, dir, files));
    FitTogether(GREETING + FilesMsgs(sum, dir, files), FAREWELL);
  }

  lemma EndsInLetters(sum: Sum32, dir: Dir, files: seq<Streamed>)
    ensures var ms := SessionMsgs(sum, dir, files); ms != [] && ms[|ms| - 1].Octet?
  {
    hide FilesMsgs;
  }

  /** Messages that take the receiver to its end are all that it reads. */
  lemma ReadToTheEnd(sum32: Checksum32, dir: Dir, ms: seq<Msg>, shapes: seq<Shape>, tail: bytes)
    requires Fitting(ms) && |shapes| == |ms| && ms != [] && ms[|ms| - 1].Octet? && Takes(Summed(sum32), Start(dir), ms)
    requires Reacts(Summed(sum32), Start(dir), ms).state.phase.Finished?
    ensures var t := Reacts(Summed(sum32), Start(dir), ms);
            ReceivesAll(sum32, dir, None, AllIn(sum32, false, ms, shapes) + tail)
            == Driving.Outcome(t.state, WriteHeads(t.out), tail)
  {
    hide Takes, Reacts, AllIn, WriteHeads, Fitting, Receives, Receiving.Step, ReceivesAll;
    var wide, pad := MessagesRead(sum32, false, [], Start(dir), ms, shapes, tail);
    assert [] + AllIn(sum32, false, ms, shapes) + tail == AllIn(sum32, false, ms, shapes) + tail;
    assert [] + tail == tail;
    var t := Reacts(Summed(sum32), Start(dir), ms);
    FinishedReadsNothing(sum32, t.state, wide, tail);
    WithoutHeader(sum32, dir, AllIn(sum32, false, ms, shapes) + tail);
    assert WriteHeads(t.out) + [] == WriteHeads(t.out);
  }

  lemma FinishedReadsNothing(sum32: Checksum32, r: Receiver, wide: bool, s: bytes)
    requires r.phase.Finished?
    ensures Receives(sum32, r, wide, s) == Driving.Outcome(r, [], s)
  {
  }

  lemma WithoutHeader(sum32: Checksum32, dir: Dir, s: bytes)
    ensures ReceivesAll(sum32, dir, None, s) == Receives(sum32, Start(dir), false, s)
  {
    hide Receives;
  }

  /**
   On bytes: a peer that streams, in frames of its own choice and with its headers in formats of its
   own choice. The receiver returns without an error, every file is in the directory, the peer has
   got its answers, and what follows the session is left.
   */
  lemma SessionReceived(sum32: Checksum32, dir: Dir, files: seq<Streamed>, shapes: seq<Shape>, tail: bytes)
    requires AllAcceptable(dir, files) && |shapes| == |SessionMsgs(Summed(sum32), dir, files)|
    ensures var o := ReceivesAll(sum32, dir, None, AllIn(sum32, false, SessionMsgs(Summed(sum32), dir, files), shapes) + tail);
            && o.state.phase.Finished? && o.state.dir == WithAll(dir, files)
            && o.out == WriteHeads(SessionAnswers(dir, files)) && o.rest == tail
  {
    hide SessionMsgs, SessionAnswers, AllAcceptable, Takes, Reacts, AllIn, WriteHeads, ReceivesAll, Fitting, WithAll;
    var ms := SessionMsgs(Summed(sum32), dir, files);
    SessionArrives(Summed(sum32), dir, files);
    SessionFits(Summed(sum32), dir, files);
    EndsInLetters(Summed(sum32), dir, files);
    ReadToTheEnd(sum32, dir, ms, shapes, tail);
  }

  /** The same, of the method that receives. */
  method ReceiveStreamed(
      codec: C.Codec, disk: T.Disk, ghost files: seq<Streamed>, ghost shapes: seq<Shape>, ghost tail: bytes)
      returns (ok: bool)
    requires codec.Valid() && AllAcceptable(disk.files, files)
    requires |shapes| == |SessionMsgs(Summed(codec.sum32), disk.files, files)|
    requires codec.Rest() == AllIn(codec.sum32, false, SessionMsgs(Summed(codec.sum32), disk.files, files), shapes) + tail
    modifies codec`at, codec`sent, disk
    ensures ok && codec.Valid() && disk.files == WithAll(old(disk.files), files)
    ensures codec.sent == old(codec.sent) + WriteHeads(SessionAnswers(old(disk.files), files)) && codec.Rest() == tail
  {
    hide AllIn, AllAcceptable, SessionMsgs, SessionAnswers, WriteHeads, WithAll, ReceivesAll;
    SessionReceived(codec.sum32, disk.files, files, shapes, tail);
    ok := T.Receive(codec, disk, None);
  }
}
