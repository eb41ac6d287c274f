/** Sending and receiving as the program does it: loops over a codec and a directory. */
module Transfer {
  import opened Bytes
  import opened Wire
  import opened Metadata
  import opened Sending
  import opened Receiving
  import opened Driving
  import opened Codec

  /** The destination directory, changed in place. */
  class Disk {
    var files: Dir

    constructor (files: Dir)
      ensures this.files == files
    {
      this.files := files;
    }
  }

  /** How a receiver in state `r` is going to end, with what it has written so far. */
  ghost function Ending(codec: Codec, r: Receiver, wide: bool): Outcome<Receiver>
    requires codec.Valid()
    reads codec
  {
    Emit(codec.sent, Receives(codec.sum32, r, wide, codec.Rest()))
  }

  /** How it is going to end when the reaction `t` to the last read has still to be written. */
  ghost function EndingAfter(codec: Codec, t: Reply, wide: bool): Outcome<Receiver>
    requires codec.Valid()
    reads codec
  {
    Emit(codec.sent + WriteHeads(t.out), Receives(codec.sum32, t.state, wide, codec.Rest()))
  }

  lemma Silent(codec: Codec, t: Reply, wide: bool)
    requires codec.Valid() && t.out == []
    ensures EndingAfter(codec, t, wide) == Ending(codec, t.state, wide)
  {
    assert codec.sent + [] == codec.sent;
  }

  /** Read a header where the machine wants one. */
  method NextHeader(codec: Codec, ghost r: Receiver, ghost wide: bool)
      returns (h: Result<Header>, ghost t: Reply)
    requires codec.Valid() && (r.phase.Opening? || r.phase.Ready? || r.phase.Resuming?)
    modifies codec`at
    ensures codec.Valid() && |codec.Rest()| <= old(|codec.Rest()|)
    ensures h.Ok? ==> t == Receiving.Step(Summed(codec.sum32), r, GotHead(HeadOf(h.value)))
                      && EndingAfter(codec, t, h.value.wide) == old(Ending(codec, r, wide))
                      && |codec.Rest()| < old(|codec.Rest()|)
    ensures h.Err? ==> t == Stop(r) && EndingAfter(codec, t, wide) == old(Ending(codec, r, wide))
  {
    hide Receives, Receiving.Step, ReadHeader, WriteHeads;
    ReceiverTurn(codec.sum32, codec.sent, r, wide, codec.Rest());
    h := codec.ReadFrameHeader();
    t := Receiving.Step(Summed(codec.sum32), r, if h.Ok? then GotHead(HeadOf(h.value)) else NoHead);
    ErrorStops(Summed(codec.sum32), r);
  }

  lemma ErrorStops(sum: Sum32, r: Receiver)
    requires Fits(r.phase, NoHead)
    ensures Receiving.Step(sum, r, NoHead) == Stop(r)
  {
  }

  /** Read a subpacket where the machine wants one. */
  method NextData(codec: Codec, ghost r: Receiver, wide: bool)
      returns (d: Result<(bytes, Marker)>, ghost t: Reply)
    requires codec.Valid()
    requires r.phase.Attention? || r.phase.Meta? || r.phase.ResumingMeta? || r.phase.Data?
    modifies codec`at
    ensures codec.Valid() && |codec.Rest()| <= old(|codec.Rest()|)
    ensures d.Ok? ==> t == Receiving.Step(Summed(codec.sum32), r, GotData(d.value.0, d.value.1))
                      && |codec.Rest()| < old(|codec.Rest()|)
    ensures d.Err? ==> t == Receiving.Step(Summed(codec.sum32), r, NoData)
    ensures EndingAfter(codec, t, wide) == old(Ending(codec, r, wide))
  {
    hide Receives, Receiving.Step, ReadData, WriteHeads;
    ReceiverTurn(codec.sum32, codec.sent, r, wide, codec.Rest());
    d := codec.ReadSubpacket(wide);
    t := Receiving.Step(Summed(codec.sum32), r, if d.Ok? then GotData(d.value.0, d.value.1) else NoData);
  }

  /** Write the one header of a reaction. */
  method Answer(codec: Codec, h: Head, ghost t: Reply, ghost wide: bool)
    requires codec.Valid() && t.out == [h]
    modifies codec`sent
    ensures codec.Valid() && codec.Rest() == old(codec.Rest())
    ensures Ending(codec, t.state, wide) == old(EndingAfter(codec, t, wide))
  {
    hide Receives;
    codec.WriteHeader(HeaderOf(h));
    WriteOne(h);
  }

  /** Consume repeated announcements of the same file, up to the answer to a checksum request. */
  method ReadResumeCrc(codec: Codec, meta: bytes, ghost r0: Receiver, ghost wide0: bool)
      returns (answer: Option<Header>, ghost r: Receiver, ghost wide: bool)
    requires codec.Valid() && r0.phase.Resuming? && r0.phase.meta == meta && r0.phase.repeats == 0
    modifies codec`at
    ensures codec.Valid() && |codec.Rest()| <= old(|codec.Rest()|)
    ensures answer.Some? ==>
              && answer.value.kind == ZCRC && wide == answer.value.wide
              && EndingAfter(codec, OnResume(r0, HeadOf(answer.value)), wide) == old(Ending(codec, r0, wide0))
    ensures answer.None? ==>
              && r == r0.(phase := Stopped)
              && Ending(codec, r, wide) == old(Ending(codec, r0, wide0))
  {
    hide Ending, EndingAfter, Receives;
    r, wide := r0, wide0;
    var repeats := 0;
    while repeats <= RESUME_REPEATS
      invariant codec.Valid() && |codec.Rest()| <= old(|codec.Rest()|)
      invariant repeats <= RESUME_REPEATS ==> r == r0.(phase := Resuming(meta, repeats, r0.phase.digest))
      invariant repeats > RESUME_REPEATS ==> r == r0.(phase := Stopped)
      invariant Ending(codec, r, wide) == old(Ending(codec, r0, wide0))
    {
      var h, t := NextHeader(codec, r, wide);
      if h.Err? {
        Silent(codec, t, wide);
        r := t.state;
        return None, r, wide;
      }
      wide := h.value.wide;
      if h.value.kind == ZCRC {
        assert t == OnResume(r0, HeadOf(h.value));
        return Some(h.value), r, wide;
      }
      Silent(codec, t, wide);
      r := t.state;
      if h.value.kind != ZFILE {
        return None, r, wide;
      }
      var again, t' := NextData(codec, r, h.value.wide);
      Silent(codec, t', wide);
      r := t'.state;
      if again.Err? || again.value.0 != meta {
        return None, r, wide;
      }
      repeats := repeats + 1;
    }
    return None, r, wide;
  }

  /** A file is announced: read its metadata, settle where to start, and open it. */
  method ReceiveFile(codec: Codec, disk: Disk, ghost r0: Receiver, wide0: bool)
      returns (ok: bool, name: bytes, size: nat, position: nat, ghost r: Receiver, ghost wide: bool)
    requires codec.Valid() && r0.phase.Meta? && r0.dir == disk.files
    modifies codec`at, codec`sent, disk
    ensures codec.Valid() && |codec.Rest()| <= old(|codec.Rest()|)
    ensures Ending(codec, r, wide) == old(Ending(codec, r0, wide0)) && r.dir == disk.files
    ensures ok ==> r == Receiver(Ready, disk.files, true, name, size, position)
    ensures !ok ==> r.phase.Stopped?
  {
    hide Ending, EndingAfter, Receives, Parse, WriteHeads;
    ok, name, size, position, wide := false, [], 0, 0, wide0;
    var meta, t := NextData(codec, r0, wide0);
    r := t.state;
    if meta.Err? {
      Silent(codec, t, wide);
      return;
    }
    assert t == OnMeta(Summed(codec.sum32), r0, meta.value.0);
    var info := Parse(meta.value.0);
    if info.None? {
      Silent(codec, t, wide);
      return;
    }
    name, size := info.value.0, info.value.1;
    if name in disk.files {
      var there := disk.files[name];
      if there.Special? || |there.content| > size {
        Silent(codec, t, wide);
        return;
      }
      position := |there.content|;
      if position > 0 {
        var digest := Position(codec.sum32(there.content));
        Answer(codec, Head(ZCRC, Cut(position)), t, wide);
        var answer, r', wide' := ReadResumeCrc(codec, meta.value.0, r, wide);
        wide := wide';
        if answer.None? {
          r := r';
          return;
        }
        t := OnResume(r, HeadOf(answer.value));
        r := t.state;
        if Position(answer.value.data) != digest {
          Silent(codec, t, wide);
          return;
        }
        Answer(codec, Head(ZRPOS, Cut(position)), t, wide);
        ok := true;
        return;
      }
      assert there == Regular([]);
    }
    disk.files := disk.files[name := Regular([])];
    Answer(codec, Head(ZRPOS, 0), t, wide);
    ok := true;
  }

  /** Write subpackets to the open file until the sender waits or one is damaged. */
  method ReceiveData(codec: Codec, disk: Disk, name: bytes, size: nat, position0: nat, ghost r0: Receiver, wide: bool)
      returns (ok: bool, position: nat, ghost r: Receiver)
    requires codec.Valid() && r0 == Receiver(Data, disk.files, true, name, size, position0)
    modifies codec`at, codec`sent, disk
    ensures codec.Valid() && |codec.Rest()| <= old(|codec.Rest()|)
    ensures Ending(codec, r, wide) == old(Ending(codec, r0, wide)) && r.dir == disk.files
    ensures ok ==> r == Receiver(Ready, disk.files, true, name, size, position)
    ensures !ok ==> r.phase.Stopped?
  {
    hide Ending, EndingAfter, Receives, WriteAt, WriteHeads;
    position, r := position0, r0;
    while true
      invariant codec.Valid() && |codec.Rest()| <= old(|codec.Rest()|)
      invariant r == Receiver(Data, disk.files, true, name, size, position)
      invariant Ending(codec, r, wide) == old(Ending(codec, r0, wide))
      decreases |codec.Rest()|
    {
      var d, t := NextData(codec, r, wide);
      r := t.state;
      if d.Err? {
        Answer(codec, Head(ZRPOS, Cut(position)), t, wide);
        return true, position, r;
      }
      var (data, end) := d.value;
      if position + |data| > size {
        Silent(codec, t, wide);
        return false, position, r;
      }
      disk.files := disk.files[name := Regular(WriteAt(ContentOf(disk.files, name), position, data))];
      position := position + |data|;
      if end == ZCRCQ || end == ZCRCW {
        Answer(codec, Head(ZACK, Cut(position)), t, wide);
      } else {
        Silent(codec, t, wide);
      }
      if end == ZCRCE || end == ZCRCW {
        return true, position, r;
      }
    }
  }

  /** Read the two letters that end a session, or the end of the stream. */
  method ReadFinal(codec: Codec, ghost r0: Receiver, ghost wide: bool) returns (ok: bool, ghost r: Receiver)
    requires codec.Valid() && r0.phase == Closing(0)
    modifies codec`at
    ensures codec.Valid() && r.dir == r0.dir
    ensures Ending(codec, r, wide) == old(Ending(codec, r0, wide))
    ensures if ok then r.phase.Finished? else r.phase.Stopped?
  {
    hide Ending, EndingAfter, Receives;
    r := r0;
    var count := 0;
    while count < CLOSING_BYTES
      invariant codec.Valid() && count <= CLOSING_BYTES
      invariant r == r0.(phase := if count < CLOSING_BYTES then Closing(count) else Stopped)
      invariant Ending(codec, r, wide) == old(Ending(codec, r0, wide))
    {
      var b, t := NextByte(codec, r, wide);
      Silent(codec, t, wide);
      r := t.state;
      if b.Err? {
        return true, r;
      }
      if b.value == BIG_O {
        b, t := NextByte(codec, r, wide);
        Silent(codec, t, wide);
        r := t.state;
        if b.Err? {
          return false, r;
        }
        if b.value == BIG_O {
          return true, r;
        }
      }
      count := count + 1;
    }
    return false, r;
  }

  method NextByte(codec: Codec, ghost r: Receiver, ghost wide: bool) returns (b: Result<byte>, ghost t: Reply)
    requires codec.Valid() && (r.phase.Closing? || r.phase.ClosingO?)
    modifies codec`at
    ensures codec.Valid()
    ensures t == Receiving.Step(Summed(codec.sum32), r, if b.Ok? then GotByte(b.value) else NoByte(true))
    ensures EndingAfter(codec, t, wide) == old(Ending(codec, r, wide))
  {
    hide Receives, Receiving.Step, WriteHeads;
    ReceiverTurn(codec.sum32, codec.sent, r, wide, codec.Rest());
    b := codec.ReadRaw();
    t := Receiving.Step(Summed(codec.sum32), r, if b.Ok? then GotByte(b.value) else NoByte(true));
  }

  /** The bytes a side has written when it ends, with the cancellation of a failure. */
  function Closed(out: bytes, ok: bool): bytes { if ok then out else out + CANCEL }

  method CancelUnless(codec: Codec, ok: bool)
    requires codec.Valid()
    modifies codec`sent
    ensures codec.Valid() && codec.Rest() == old(codec.Rest())
    ensures codec.sent == Closed(old(codec.sent), ok)
  {
    if !ok {
      codec.Cancel();
    }
  }

  lemma EndingOver(codec: Codec, r: Receiver, wide: bool)
    requires codec.Valid() && (r.phase.Finished? || r.phase.Stopped?)
    ensures Ending(codec, r, wide) == Outcome(r, codec.sent, codec.Rest())
  {
    assert codec.sent + [] == codec.sent;
  }

  /** Receive files into a directory until the peer has finished or something is wrong. */
  method Receive(codec: Codec, disk: Disk, initial: Option<Header>) returns (ok: bool)
    requires codec.Valid()
    modifies codec`at, codec`sent, disk
    ensures codec.Valid()
    ensures var o := old(ReceivesAll(codec.sum32, disk.files, initial, codec.Rest()));
            && ok == o.state.phase.Finished?
            && disk.files == o.state.dir
            && codec.sent == Closed(old(codec.sent) + o.out, ok)
            && codec.Rest() == o.rest
  {
    hide Ending, EndingAfter, Receives, WriteHeads;
    ghost var goal := Emit(codec.sent, ReceivesAll(codec.sum32, disk.files, initial, codec.Rest()));
    ghost var r;
    ghost var wide;
    ok, r, wide := ReceiveOpening(codec, disk, initial);
    if ok {
      ok, r, wide := ReceiveLoop(codec, disk, r, wide);
    }
    EndingOver(codec, r, wide);
    CancelUnless(codec, ok);
  }

  method ReceiveOpening(codec: Codec, disk: Disk, initial: Option<Header>)
      returns (ok: bool, ghost r: Receiver, ghost wide: bool)
    requires codec.Valid()
    modifies codec`at, codec`sent
    ensures codec.Valid()
    ensures Ending(codec, r, wide)
            == Emit(old(codec.sent), old(ReceivesAll(codec.sum32, disk.files, initial, codec.Rest())))
    ensures if ok then r == Receiver(Ready, disk.files, false, [], 0, 0)
            else r.phase.Stopped? && r.dir == disk.files
  {
    hide Ending, EndingAfter, Receives, WriteHeads;
    r, wide := Start(disk.files), false;
    var first := initial;
    ghost var t;
    if initial.None? {
      OpeningEnding(codec, r);
      var h;
      h, t := NextHeader(codec, r, wide);
      if h.Err? {
        Silent(codec, t, wide);
        return false, t.state, wide;
      }
      first := Some(h.value);
    } else {
      t := Receiving.Step(Summed(codec.sum32), r, GotHead(HeadOf(initial.value)));
      InitialEnding(codec, t, initial.value.wide, disk.files, initial);
    }
    wide := first.value.wide;
    r := t.state;
    if first.value.kind != ZRQINIT {
      Silent(codec, t, wide);
      return false, r, wide;
    }
    Answer(codec, READY, t, wide);
    ok := true;
  }

  lemma OpeningEnding(codec: Codec, r: Receiver)
    requires codec.Valid()
    ensures Ending(codec, r, false) == Emit(codec.sent, Receives(codec.sum32, r, false, codec.Rest()))
  {
  }

  lemma InitialEnding(codec: Codec, t: Reply, wide: bool, dir: Dir, initial: Option<Header>)
    requires codec.Valid() && initial.Some? && wide == initial.value.wide
    requires t == Receiving.Step(Summed(codec.sum32), Start(dir), GotHead(HeadOf(initial.value)))
    ensures EndingAfter(codec, t, wide)
            == Emit(codec.sent, ReceivesAll(codec.sum32, dir, initial, codec.Rest()))
  {
    hide Receives, Receiving.Step, WriteHeads;
    var later := Receives(codec.sum32, t.state, wide, codec.Rest()).out;
    assert codec.sent + (WriteHeads(t.out) + later) == (codec.sent + WriteHeads(t.out)) + later;
  }

  /** The loop over headers, one file after another. */
  method ReceiveLoop(codec: Codec, disk: Disk, ghost r0: Receiver, ghost wide0: bool)
      returns (ok: bool, ghost r: Receiver, ghost wide: bool)
    requires codec.Valid() && r0 == Receiver(Ready, disk.files, false, [], 0, 0)
    modifies codec`at, codec`sent, disk
    ensures codec.Valid() && r.dir == disk.files
    ensures Ending(codec, r, wide) == old(Ending(codec, r0, wide0))
    ensures if ok then r.phase.Finished? else r.phase.Stopped?
  {
    hide Ending, EndingAfter, Receives, WriteHeads;
    r, wide := r0, wide0;
    var open, name, size, position := false, [], 0, 0;
    while true
      invariant codec.Valid()
      invariant r == Receiver(Ready, disk.files, open, name, size, position)
      invariant Ending(codec, r, wide) == old(Ending(codec, r0, wide0))
      decreases |codec.Rest()|
    {
      var h, t := NextHeader(codec, r, wide);
      r := t.state;
      if h.Err? {
        Silent(codec, t, wide);
        return false, r, wide;
      }
      wide := h.value.wide;
      var kind, at := h.value.kind, Position(h.value.data);
      if kind == ZRQINIT {
        Answer(codec, READY, t, wide);
      } else if kind == ZSINIT {
        Silent(codec, t, wide);
        var d, t' := NextData(codec, r, h.value.wide);
        r := t'.state;
        if d.Err? {
          Silent(codec, t', wide);
          return false, r, wide;
        }
        Answer(codec, Head(ZACK, 1), t', wide);
      } else if kind == ZFILE {
        Silent(codec, t, wide);
        ok, name, size, position, r, wide := ReceiveFile(codec, disk, r, h.value.wide);
        if !ok {
          return;
        }
        open := true;
      } else if kind == ZDATA && open && at == position {
        Silent(codec, t, wide);
        ok, position, r := ReceiveData(codec, disk, name, size, position, r, h.value.wide);
        if !ok {
          return;
        }
      } else if kind == ZEOF && open && at == position && position == size {
        open := false;
        Answer(codec, READY, t, wide);
      } else if kind == ZFIN && !open {
        Answer(codec, Head(ZFIN, 0), t, wide);
        ok, r := ReadFinal(codec, r, wide);
        return;
      } else {
        Silent(codec, t, wide);
        return false, r, wide;
      }
    }
  }

  // ----------------------------------------------------------------- sending

  /** How a sender in state `s` is going to end, with what it has written so far. */
  ghost function SendEnding(codec: Codec, files: seq<Source>, s: State): Outcome<State>
    requires codec.Valid() && WellFormed(files, s)
    reads codec
  {
    Emit(codec.sent, Sends(codec.sum32, files, s, codec.Rest()))
  }

  /** How it is going to end when the messages of turn `t` have still to be written. */
  ghost function SendEndingAfter(codec: Codec, files: seq<Source>, t: Turn): Outcome<State>
    requires codec.Valid() && WellFormed(files, t.state)
    reads codec
  {
    Emit(codec.sent + WriteMsgs(codec.sum32, t.out), Sends(codec.sum32, files, t.state, codec.Rest()))
  }

  /** A sender that has failed ends as it is. */
  ghost predicate SendFailed(codec: Codec, promised: Outcome<State>)
    requires codec.Valid()
    reads codec
  {
    promised == Outcome(State.Failed, codec.sent, codec.Rest())
  }

  lemma FailedOver(codec: Codec, files: seq<Source>)
    requires codec.Valid()
    ensures SendFailed(codec, SendEndingAfter(codec, files, Turn(State.Failed, [])))
  {
    assert codec.sent + [] + [] == codec.sent;
  }

  /** Read the header the sender waits for. */
  method NextReply(codec: Codec, files: seq<Source>, ghost s: State)
      returns (h: Result<Header>, ghost t: Turn)
    requires codec.Valid() && WellFormed(files, s) && Active(s)
    modifies codec`at
    ensures codec.Valid() && |codec.Rest()| <= old(|codec.Rest()|)
    ensures h.Ok? ==>
              && t == Sending.Step(files, Summed(codec.sum32), s, HeadOf(h.value))
              && SendEndingAfter(codec, files, t) == old(SendEnding(codec, files, s))
              && |codec.Rest()| < old(|codec.Rest()|)
    ensures h.Err? ==> SendFailed(codec, old(SendEnding(codec, files, s)))
  {
    hide Sending.Step, ReadHeader, WriteMsgs;
    t := Turn(State.Failed, []);
    if ReadHeader(codec.sum32, codec.Rest()).result.Ok? {
      SenderTurn(codec.sum32, files, codec.sent, s, codec.Rest());
    } else {
      assert codec.sent + [] == codec.sent;
    }
    h := codec.ReadFrameHeader();
    if h.Ok? {
      t := Sending.Step(files, Summed(codec.sum32), s, HeadOf(h.value));
    }
  }

  lemma MessageByMessage(codec: Codec, files: seq<Source>, t: Turn, sent: bytes)
    requires codec.Valid() && WellFormed(files, t.state) && t.out != []
    requires codec.sent == sent + WriteMsg(codec.sum32, t.out[0])
    ensures SendEndingAfter(codec, files, Turn(t.state, t.out[1..]))
            == Emit(sent + WriteMsgs(codec.sum32, t.out), Sends(codec.sum32, files, t.state, codec.Rest()))
    ensures |t.out| == 1 ==>
              SendEnding(codec, files, t.state) == SendEndingAfter(codec, files, Turn(t.state, t.out[1..]))
  {
    hide Sends, WriteMsg;
    var m, rest := WriteMsg(codec.sum32, t.out[0]), WriteMsgs(codec.sum32, t.out[1..]);
    assert sent + (m + rest) == (sent + m) + rest;
    assert |t.out| == 1 ==> codec.sent + rest == codec.sent;
  }

  /** Write the first message of a turn. */
  method Say(codec: Codec, files: seq<Source>, m: Msg, ghost t: Turn)
    requires codec.Valid() && WellFormed(files, t.state)
    requires t.out != [] && t.out[0] == m && !m.Damaged?
    modifies codec`sent
    ensures codec.Valid() && codec.Rest() == old(codec.Rest())
    ensures SendEndingAfter(codec, files, Turn(t.state, t.out[1..])) == old(SendEndingAfter(codec, files, t))
    ensures |t.out| == 1 ==> SendEnding(codec, files, t.state) == old(SendEndingAfter(codec, files, t))
  {
    hide Sends, WriteMsgs, EncodeHeader, EncodeData;
    match m {
      case Control(h) => codec.WriteHeader(HeaderOf(h));
      case Packet(data, end) => codec.WriteData(data, end, false);
      case Octet(v) => codec.sent := codec.sent + [v];
    }
    MessageByMessage(codec, files, t, old(codec.sent));
  }

  /** Announce a file and find out where the receiver wants it to start. */
  method StartFile(codec: Codec, files: seq<Source>, i: nat)
      returns (ok: bool, skipped: bool, pos: U32)
    requires codec.Valid() && i < |files| && Sendable(files[i])
    modifies codec`at, codec`sent
    ensures codec.Valid()
    ensures ok && skipped ==>
              SendEndingAfter(codec, files, Offer(files, i + 1)) == old(SendEndingAfter(codec, files, Offer(files, i)))
    ensures ok && !skipped ==>
              && pos <= |files[i].content|
              && SendEndingAfter(codec, files, SendChunk(files, i, pos, 0)) == old(SendEndingAfter(codec, files, Offer(files, i)))
    ensures !ok ==> SendFailed(codec, old(SendEndingAfter(codec, files, Offer(files, i))))
  {
    hide SendEnding, SendEndingAfter, SendFailed, Format, SendChunk;
    ok, skipped, pos := false, false, 0;
    var content := files[i].content;
    ghost var t := Offer(files, i);
    Say(codec, files, Control(Head(ZFILE, 0)), t);
    var meta := Format(files[i].name, |content|);
    Say(codec, files, Packet(meta, ZCRCW), Turn(t.state, t.out[1..]));
    var tries := 0;
    while true
      invariant codec.Valid() && tries < START_TRIES
      invariant SendEnding(codec, files, AwaitStart(i, tries))
                == old(SendEndingAfter(codec, files, Offer(files, i)))
      decreases START_TRIES - tries
    {
      var h;
      h, t := NextReply(codec, files, AwaitStart(i, tries));
      if h.Err? {
        return;
      }
      var kind, at := h.value.kind, Position(h.value.data);
      if kind == ZSKIP {
        return true, true, 0;
      } else if kind == ZRPOS {
        if at > |content| {
          FailedOver(codec, files);
          return;
        }
        return true, false, at;
      } else if kind == ZCRC {
        var n := if at == 0 then |content| else at;
        if n > |content| {
          FailedOver(codec, files);
          return;
        }
        var sum := Position(codec.sum32(content[..n]));
        Say(codec, files, Control(Head(ZCRC, sum)), t);
        assert tries + 1 == START_TRIES ==> t.out[1..] == SendChunk(files, i, 0, 0).out;
      } else if tries + 1 < START_TRIES {
        Quiet(codec, files, t);
      }
      tries := tries + 1;
      if tries == START_TRIES {
        return true, false, 0;
      }
    }
  }

  lemma Quiet(codec: Codec, files: seq<Source>, t: Turn)
    requires codec.Valid() && WellFormed(files, t.state) && t.out == []
    ensures SendEndingAfter(codec, files, t) == SendEnding(codec, files, t.state)
  {
    assert codec.sent + [] == codec.sent;
  }

  /** Send the chunks of a file, repeating those the receiver asks for again. */
  method SendChunks(codec: Codec, files: seq<Source>, i: nat, start: U32) returns (ok: bool)
    requires codec.Valid() && i < |files| && Sendable(files[i]) && start <= |files[i].content|
    modifies codec`at, codec`sent
    ensures codec.Valid()
    ensures ok ==> SendEndingAfter(codec, files, Turn(AwaitNext(i), [Control(Head(ZEOF, |files[i].content|))]))
                   == old(SendEndingAfter(codec, files, SendChunk(files, i, start, 0)))
    ensures !ok ==> SendFailed(codec, old(SendEndingAfter(codec, files, SendChunk(files, i, start, 0))))
  {
    hide SendEnding, SendEndingAfter, SendFailed;
    var content := files[i].content;
    var pos: U32 := start;
    var retries := 0;
    while pos < |content|
      invariant codec.Valid() && pos <= |content| && retries <= MAX_RETRIES
      invariant SendEndingAfter(codec, files, SendChunk(files, i, pos, retries))
                == old(SendEndingAfter(codec, files, SendChunk(files, i, start, 0)))
      decreases |codec.Rest()|
    {
      ghost var t := SendChunk(files, i, pos, retries);
      var n := ChunkSize(content, pos);
      Say(codec, files, Control(Head(ZDATA, pos)), t);
      Say(codec, files, Packet(content[pos..pos + n], ZCRCW), Turn(t.state, t.out[1..]));
      var h;
      h, t := NextReply(codec, files, t.state);
      if h.Err? {
        return false;
      }
      var at := Position(h.value.data);
      if h.value.kind == ZACK && at == pos + n {
        pos := pos + n;
        retries := 0;
      } else if h.value.kind == ZRPOS && at <= |content| && retries + 1 <= MAX_RETRIES {
        pos := at;
        retries := retries + 1;
      } else {
        FailedOver(codec, files);
        return false;
      }
    }
    ok := true;
  }

  method SendFile(codec: Codec, files: seq<Source>, i: nat) returns (ok: bool)
    requires codec.Valid() && i < |files|
    modifies codec`at, codec`sent
    ensures codec.Valid()
    ensures ok ==> SendEndingAfter(codec, files, Offer(files, i + 1)) == old(SendEndingAfter(codec, files, Offer(files, i)))
    ensures !ok ==> SendFailed(codec, old(SendEndingAfter(codec, files, Offer(files, i))))
  {
    hide SendEnding, SendEndingAfter, SendFailed;
    if !files[i].regular || |files[i].content| > MAX_SIZE {
      FailedOver(codec, files);
      return false;
    }
    var skipped, pos;
    ok, skipped, pos := StartFile(codec, files, i);
    if !ok || skipped {
      return;
    }
    ok := SendChunks(codec, files, i, pos);
    if !ok {
      return;
    }
    ghost var t := Turn(AwaitNext(i), [Control(Head(ZEOF, |files[i].content|))]);
    Say(codec, files, Control(Head(ZEOF, |files[i].content|)), t);
    var h;
    h, t := NextReply(codec, files, AwaitNext(i));
    if h.Err? {
      return false;
    }
    if h.value.kind != ZRINIT {
      FailedOver(codec, files);
      return false;
    }
  }

  /** Say goodbye and wait for the receiver to do the same. */
  method SendFinal(codec: Codec, files: seq<Source>) returns (ok: bool)
    requires codec.Valid()
    modifies codec`at, codec`sent
    ensures codec.Valid()
    ensures if ok then old(SendEndingAfter(codec, files, Offer(files, |files|))) == Outcome(Sent, codec.sent, codec.Rest())
            else SendFailed(codec, old(SendEndingAfter(codec, files, Offer(files, |files|))))
  {
    hide SendEnding, SendEndingAfter, SendFailed;
    ghost var t := Offer(files, |files|);
    Say(codec, files, Control(Head(ZFIN, 0)), t);
    var tries := 0;
    while tries < FIN_TRIES
      invariant codec.Valid() && tries <= FIN_TRIES
      invariant tries < FIN_TRIES ==>
                  SendEnding(codec, files, AwaitFin(tries)) == old(SendEndingAfter(codec, files, Offer(files, |files|)))
      invariant tries == FIN_TRIES ==>
                  SendFailed(codec, old(SendEndingAfter(codec, files, Offer(files, |files|))))
    {
      var h;
      h, t := NextReply(codec, files, AwaitFin(tries));
      if h.Err? {
        return false;
      }
      if h.value.kind == ZFIN {
        Say(codec, files, Octet(BIG_O), t);
        Say(codec, files, Octet(BIG_O), Turn(t.state, t.out[1..]));
        SentOver(codec, files);
        return true;
      }
      if tries + 1 == FIN_TRIES {
        FailedOver(codec, files);
      } else {
        Quiet(codec, files, t);
      }
      tries := tries + 1;
    }
    return false;
  }

  lemma SentOver(codec: Codec, files: seq<Source>)
    requires codec.Valid()
    ensures SendEnding(codec, files, Sent) == Outcome(Sent, codec.sent, codec.Rest())
  {
    assert codec.sent + [] == codec.sent;
  }

  method SendOpening(codec: Codec, files: seq<Source>, initial: Option<Header>) returns (ok: bool)
    requires codec.Valid()
    modifies codec`at, codec`sent
    ensures codec.Valid()
    ensures var promised := Emit(old(codec.sent), old(SendsAll(codec.sum32, files, initial, codec.Rest())));
            if ok then SendEndingAfter(codec, files, Offer(files, 0)) == promised
            else SendFailed(codec, promised)
  {
    hide SendFailed, Offer;
    ghost var t := Turn(State.Failed, []);
    var first := initial;
    if initial.None? {
      AskFirst(codec, files);
      codec.WriteHeader(HeaderOf(Head(ZRQINIT, 0)));
      var h;
      h, t := NextReply(codec, files, AwaitInit);
      if h.Err? {
        return false;
      }
      first := Some(h.value);
    } else {
      t := Sending.Step(files, Summed(codec.sum32), AwaitInit, HeadOf(initial.value));
      InitialSend(codec, files, t, initial);
    }
    if first.value.kind != ZRINIT {
      FailedOver(codec, files);
      return false;
    }
    ok := true;
  }

  lemma AskFirst(codec: Codec, files: seq<Source>)
    requires codec.Valid()
    ensures Emit(codec.sent + WriteHead(Head(ZRQINIT, 0)), Sends(codec.sum32, files, AwaitInit, codec.Rest()))
            == Emit(codec.sent, SendsAll(codec.sum32, files, None, codec.Rest()))
  {
    hide Sends;
    var later := Sends(codec.sum32, files, AwaitInit, codec.Rest()).out;
    var ask := WriteHead(Head(ZRQINIT, 0));
    assert codec.sent + (ask + later) == (codec.sent + ask) + later;
  }

  lemma InitialSend(codec: Codec, files: seq<Source>, t: Turn, initial: Option<Header>)
    requires codec.Valid() && initial.Some?
    requires t == Sending.Step(files, Summed(codec.sum32), AwaitInit, HeadOf(initial.value))
    ensures SendEndingAfter(codec, files, t) == Emit(codec.sent, SendsAll(codec.sum32, files, initial, codec.Rest()))
  {
    hide Sends, Sending.Step;
    var later := Sends(codec.sum32, files, t.state, codec.Rest()).out;
    var b := WriteMsgs(codec.sum32, t.out);
    assert codec.sent + (b + later) == (codec.sent + b) + later;
  }

  /** Send files one after another, until all are sent or something is wrong. */
  method Send(codec: Codec, files: seq<Source>, initial: Option<Header>) returns (ok: bool)
    requires codec.Valid()
    modifies codec`at, codec`sent
    ensures codec.Valid()
    ensures var o := old(SendsAll(codec.sum32, files, initial, codec.Rest()));
            && ok == o.state.Sent?
            && codec.sent == Closed(old(codec.sent) + o.out, ok)
            && codec.Rest() == o.rest
  {
    hide SendEndingAfter, Offer;
    ghost var promised := Emit(codec.sent, SendsAll(codec.sum32, files, initial, codec.Rest()));
    ok := SendOpening(codec, files, initial);
    var i := 0;
    while ok && i < |files|
      invariant codec.Valid() && i <= |files|
      invariant if ok then SendEndingAfter(codec, files, Offer(files, i)) == promised
                else SendFailed(codec, promised)
      decreases |files| - i, ok
    {
      ok := SendFile(codec, files, i);
      i := if ok then i + 1 else i;
    }
    if ok {
      ok := SendFinal(codec, files);
    }
    CancelUnless(codec, ok);
  }
}
