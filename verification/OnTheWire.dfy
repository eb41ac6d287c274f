/** A whole session over two undamaged byte streams, each being what the other side writes. */
module OnTheWire {
  import opened Bytes
  import opened Wire
  import opened RoundTrip
  import opened Metadata
  import opened Sending
  import opened Receiving
  import opened Session
  import opened SessionProofs
  import opened Driving

  /** Flow control left over from the previous frame. */
  predicate Pad(b: bytes) { b == [] || b == [XON] }

  predicate Small(m: Msg) {
    match m
    case Packet(data, _) => |data| <= MAX_SUBPACKET
    case Damaged => false
    case _ => true
  }

  /** What a message leaves in front of the next one. */
  function Behind(m: Msg): bytes {
    match m
    case Control(h) => HeaderTail(HeaderOf(h))
    case Packet(_, end) => DataTail(end)
    case _ => []
  }

  lemma HeadReads(sum32: Checksum32, pad: bytes, h: Head, tail: bytes) returns (pad': bytes)
    requires Pad(pad)
    ensures pad' == Behind(Control(h))
    ensures Pad(pad') && ReadHeader(sum32, pad + WriteHead(h) + tail) == Parsed(Ok(HeaderOf(h)), pad' + tail)
    ensures HeadOf(HeaderOf(h)) == h
  {
    hide ReadHeader, EncodeHeader;
    PositionOf(h.pos);
    assert Strip(pad) == [];
    HeaderRoundTrip(sum32, pad, HeaderOf(h), tail);
    pad' := HeaderTail(HeaderOf(h));
  }

  lemma PacketReads(sum32: Checksum32, pad: bytes, data: bytes, end: Marker, tail: bytes) returns (pad': bytes)
    requires Pad(pad) && |data| <= MAX_SUBPACKET
    ensures Pad(pad') && pad' == DataTail(end)
    ensures ReadData(sum32, false, pad + EncodeData(sum32, data, end, false) + tail)
            == Parsed(Ok((data, end)), pad' + tail)
  {
    hide ReadData, EncodeData;
    OneFrameReads(sum32, pad, DataFrame(data, end), tail);
    pad' := DataTail(end);
  }

  lemma OctetReads(pad: bytes, v: byte, tail: bytes)
    requires Pad(pad) && !Flow(v)
    ensures Raw(pad + [v] + tail) == Parsed(Ok(v), tail)
  {
    var s := pad + [v] + tail;
    assert ([v] + tail)[1..] == tail;
    if pad == [] {
      assert s == [v] + tail;
    } else {
      assert s[1..] == [v] + tail;
    }
  }

  /** The receiver takes from its stream what the sender put there. */
  lemma MessageArrives(sum32: Checksum32, pad: bytes, p: Phase, m: Msg, tail: bytes) returns (pad': bytes)
    requires Pad(pad) && Small(m) && Fits(p, Arrives(m)) && (m.Octet? ==> !Flow(m.v))
    ensures Pad(pad') && pad' == Behind(m)
    ensures Take(sum32, p, false, pad + WriteMsg(sum32, m) + tail) == (Arrives(m), false, pad' + tail)
  {
    hide ReadHeader, ReadData, EncodeData, EncodeHeader;
    match m
    case Control(h) => pad' := HeadReads(sum32, pad, h, tail);
    case Packet(data, end) => pad' := PacketReads(sum32, pad, data, end, tail);
    case Octet(v) =>
      OctetReads(pad, v, tail);
      pad' := [];
      assert pad' + tail == tail;
  }

  /** Everything in flight fits the codec. */
  predicate Fitting(ms: seq<Msg>) {
    forall m | m in ms :: Small(m) && (m.Octet? ==> !Flow(m.v))
  }

  predicate ShortNames(k: Setup) {
    forall i | 0 <= i < |k.files| :: |k.files[i].name| <= 0x1_0000
  }

  lemma {:induction false} DecimalShort(n: nat, digits: nat)
    requires n < Pow10(digits) && digits >= 1
    ensures |Decimal(n)| <= digits
  {
    if n >= 10 {
      DecimalShort(n / 10, digits - 1);
    }
  }

  function Pow10(n: nat): nat { if n == 0 then 1 else 10 * Pow10(n - 1) }

  lemma MetadataSmall(f: Source)
    requires |f.name| <= 0x1_0000 && |f.content| <= MAX_SIZE
    ensures |Format(f.name, |f.content|)| <= MAX_SUBPACKET
  {
    assert Pow10(3) == 1000 && Pow10(6) == 1000 * Pow10(3) && Pow10(9) == 1000 * Pow10(6);
    DecimalShort(|f.content|, 10);
  }

  lemma SenderFits(k: Setup, s: State, h: Head)
    requires WellFormed(k.files, s) && Active(s) && ShortNames(k)
    ensures Fitting(Sending.Step(k.files, k.sum, s, h).out)
  {
    hide Format, ShortNames;
    forall i | 0 <= i < |k.files| && Sendable(k.files[i])
      ensures |Format(k.files[i].name, |k.files[i].content|)| <= MAX_SUBPACKET
    {
      ShortName(k, i);
      MetadataSmall(k.files[i]);
    }
  }

  lemma ShortName(k: Setup, i: nat)
    requires ShortNames(k) && i < |k.files|
    ensures |k.files[i].name| <= 0x1_0000
  {
  }

  // ------------------------------------------------------------ two streams

  lemma {:induction false} WriteMsgsConcat(sum32: Checksum32, a: seq<Msg>, b: seq<Msg>)
    ensures WriteMsgs(sum32, a + b) == WriteMsgs(sum32, a) + WriteMsgs(sum32, b)
  {
    hide WriteMsg;
    if a == [] {
      assert a + b == b;
    } else {
      assert (a + b)[1..] == a[1..] + b;
      WriteMsgsConcat(sum32, a[1..], b);
    }
  }

  lemma {:induction false} WriteHeadsConcat(a: seq<Head>, b: seq<Head>)
    ensures WriteHeads(a + b) == WriteHeads(a) + WriteHeads(b)
  {
    hide WriteHead;
    if a == [] {
      assert a + b == b;
    } else {
      assert (a + b)[1..] == a[1..] + b;
      WriteHeadsConcat(a[1..], b);
    }
  }

  /** The unread bytes of the two sides, with the flow control in front of each. */
  datatype Streams = Streams(padDown: bytes, down: bytes, padUp: bytes, up: bytes)

  /** What is on the channels behind the session, which is not the session's business. */
  datatype Tails = Tails(down: bytes, up: bytes)

  /**
   What each side has still to read is what the other has written and is going to write:
   the messages in flight, and then everything its machine answers to its own stream.
   */
  ghost predicate Joined(k: Setup, sum32: Checksum32, j: Session, w: Streams, z: Tails) {
    && WellFormed(k.files, j.s) && k.sum == Summed(sum32) && Pad(w.padDown) && Pad(w.padUp)
    && w.down == w.padDown + (WriteMsgs(sum32, j.down) + Sends(sum32, k.files, j.s, w.up).out) + z.down
    && w.up == w.padUp + (WriteHeads(j.up) + Receives(sum32, j.r, false, w.down).out) + z.up
    && (j.s.Sent? ==> w.padUp == []) && (j.r.phase.Finished? ==> w.padDown == [])
  }

  /** Both sides to their ends, and to what they leave unread. */
  ghost predicate SameEnds(k: Setup, sum32: Checksum32, j: Session, w: Streams, j': Session, w': Streams) {
    && WellFormed(k.files, j.s) && WellFormed(k.files, j'.s)
    && Sends(sum32, k.files, j.s, w.up).state == Sends(sum32, k.files, j'.s, w'.up).state
    && Sends(sum32, k.files, j.s, w.up).rest == Sends(sum32, k.files, j'.s, w'.up).rest
    && Receives(sum32, j.r, false, w.down).state == Receives(sum32, j'.r, false, w'.down).state
    && Receives(sum32, j.r, false, w.down).rest == Receives(sum32, j'.r, false, w'.down).rest
  }

  /** The sender finishes on a header that leaves nothing behind. */
  lemma SentIsClean(k: Setup, s: State, h: Head)
    requires WellFormed(k.files, s) && Active(s)
    ensures Sending.Step(k.files, k.sum, s, h).state.Sent? ==> Behind(Control(h)) == []
  {
    hide Format;
  }

  lemma FinishedIsClean(k: Setup, r: Receiver, m: Msg)
    requires Fits(r.phase, Arrives(m))
    ensures Receiving.Step(k.sum, r, Arrives(m)).state.phase.Finished? ==> Behind(m) == []
  {
    hide Parse, WriteAt;
  }

  lemma SenderAdvances(k: Setup, sum32: Checksum32, j: Session, w: Streams, z: Tails) returns (j': Session, w': Streams)
    requires Joined(k, sum32, j, w, z) && Active(j.s) && j.up != [] && ShortNames(k) && Fitting(j.down)
    ensures SenderMoves(k, j, j') && GentleMove(k, j, j') && Fitting(j'.down)
    ensures Joined(k, sum32, j', w', z) && SameEnds(k, sum32, j, w, j', w')
  {
    hide Sending.Step, Receives, WriteHead, WriteMsgs, ReadHeader, ShortNames, Behind;
    var h := j.up[0];
    var answer := Receives(sum32, j.r, false, w.down).out;
    var tail := WriteHeads(j.up[1..]) + answer + z.up;
    assert w.up == w.padUp + WriteHead(h) + tail;
    var pad := HeadReads(sum32, w.padUp, h, tail);
    var t := Sending.Step(k.files, k.sum, j.s, h);
    SentIsClean(k, j.s, h);
    j' := Session(t.state, j.r, j.down + t.out, j.up[1..]);
    w' := Streams(w.padDown, w.down, pad, pad + tail);
    var later := Sends(sum32, k.files, t.state, w'.up).out;
    assert Sends(sum32, k.files, j.s, w.up).out == WriteMsgs(sum32, t.out) + later;
    WriteMsgsConcat(sum32, j.down, t.out);
    assert WriteMsgs(sum32, j.down) + (WriteMsgs(sum32, t.out) + later)
           == WriteMsgs(sum32, j.down + t.out) + later;
    assert pad + tail == pad + (WriteHeads(j.up[1..]) + answer) + z.up;
    assert j'.down[|j.down|..] == t.out;
    assert SenderMoves(k, j, j');
    SenderFits(k, j.s, h);
    assert Damaged !in j'.down;
  }

  lemma ReceiverAdvances(k: Setup, sum32: Checksum32, j: Session, w: Streams, z: Tails) returns (j': Session, w': Streams)
    requires Joined(k, sum32, j, w, z) && j.down != [] && Fits(j.r.phase, Arrives(j.down[0])) && Fitting(j.down)
    ensures ReceiverMoves(k, j, j') && GentleMove(k, j, j') && Fitting(j'.down)
    ensures Joined(k, sum32, j', w', z) && SameEnds(k, sum32, j, w, j', w')
  {
    hide Receiving.Step, Sends, WriteMsg, WriteHeads, Take, Behind;
    var m := j.down[0];
    var more := Sends(sum32, k.files, j.s, w.up).out;
    var tail := WriteMsgs(sum32, j.down[1..]) + more + z.down;
    assert w.down == w.padDown + WriteMsg(sum32, m) + tail;
    var pad := MessageArrives(sum32, w.padDown, j.r.phase, m, tail);
    var t := Receiving.Step(k.sum, j.r, Arrives(m));
    FinishedIsClean(k, j.r, m);
    j' := Session(j.s, t.state, j.down[1..], j.up + t.out);
    w' := Streams(pad, pad + tail, w.padUp, w.up);
    var later := Receives(sum32, t.state, false, w'.down).out;
    assert Receives(sum32, j.r, false, w.down).out == WriteHeads(t.out) + later;
    WriteHeadsConcat(j.up, t.out);
    assert WriteHeads(j.up) + (WriteHeads(t.out) + later) == WriteHeads(j.up + t.out) + later;
    assert pad + tail == pad + (WriteMsgs(sum32, j.down[1..]) + more) + z.down;
    assert ReceiverMoves(k, j, j');
  }

  lemma {:induction false} ToTheEnd(k: Setup, sum32: Checksum32, j: Session, w: Streams, z: Tails)
    requires Sound(k) && ShortNames(k) && Sync(k, j) && !Lost(j) && Fitting(j.down)
    requires Joined(k, sum32, j, w, z)
    ensures Sends(sum32, k.files, j.s, w.up).state.Sent?
            && Receives(sum32, j.r, false, w.down).state.phase.Finished?
            ==>
              && Receives(sum32, j.r, false, w.down).state.dir == Expected(k, |k.files|)
              && Receives(sum32, j.r, false, w.down).rest == z.down && Sends(sum32, k.files, j.s, w.up).rest == z.up
    ensures Welcome(k) && Hopeful(k, j) ==>
              Sends(sum32, k.files, j.s, w.up).state.Sent?
              && Receives(sum32, j.r, false, w.down).state.phase.Finished?
    decreases Rank(k, j)
  {
    hide Sync, Sound, ShortNames, Welcome, Hopeful, Joined, GentleMove, SenderMoves, ReceiverMoves, Expected, Rank;
    InForm(k, sum32, j, w, z);
    if Delivered(j) {
      DeliveredEnds(k, sum32, j, w, z);
    } else {
      SomebodyWaits(k, j);
      var j', w';
      if j.up != [] {
        j', w' := SenderAdvances(k, sum32, j, w, z);
      } else {
        j', w' := ReceiverAdvances(k, sum32, j, w, z);
      }
      MoveDescends(k, j, j');
      if Welcome(k) && Hopeful(k, j) {
        HopeKept(k, j, j');
        HopefulAlive(k, j');
      }
      if !Lost(j') {
        ToTheEnd(k, sum32, j', w', z);
      }
    }
  }

  lemma InForm(k: Setup, sum32: Checksum32, j: Session, w: Streams, z: Tails)
    requires Joined(k, sum32, j, w, z)
    ensures WellFormed(k.files, j.s)
  {
  }

  lemma DeliveredIs(k: Setup, j: Session)
    requires Sync(k, j) && Delivered(j)
    ensures j.r.dir == Expected(k, |k.files|) && j.up == [] && j.down == []
  {
    hide Expected;
  }

  lemma DeliveredEnds(k: Setup, sum32: Checksum32, j: Session, w: Streams, z: Tails)
    requires Sync(k, j) && Delivered(j) && Joined(k, sum32, j, w, z)
    ensures j.r.dir == Expected(k, |k.files|)
    ensures Sends(sum32, k.files, j.s, w.up) == Outcome(j.s, [], z.up)
    ensures Receives(sum32, j.r, false, w.down) == Outcome(j.r, [], z.down)
  {
    hide Expected, Sync;
    DeliveredIs(k, j);
    assert w.up == [] + ([] + []) + z.up && w.down == [] + ([] + []) + z.down;
  }

  lemma HopefulAlive(k: Setup, j: Session)
    requires Hopeful(k, j)
    ensures !Lost(j)
  {
  }

  /**
   Two streams of bytes, each exactly what the program writes on reading the other: when
   both sides return without an error, every file is in the destination; and when the
   destination accepts the files, both do.
   */
  lemma WireDelivery(k: Setup, sum32: Checksum32, down: bytes, up: bytes)
    requires Sound(k) && ShortNames(k) && k.sum == Summed(sum32)
    requires down == SendsAll(sum32, k.files, None, up).out && up == ReceivesAll(sum32, k.dir, None, down).out
    ensures var s := SendsAll(sum32, k.files, None, up).state;
            var r := ReceivesAll(sum32, k.dir, None, down).state;
            && (s.Sent? && r.phase.Finished? ==> r.dir == Expected(k, |k.files|))
            && (Welcome(k) ==> s.Sent? && r.phase.Finished?)
  {
    hide WriteHead, Sends, Receives, Sound, ShortNames, Welcome, Expected;
    var ask := Control(Head(ZRQINIT, 0));
    var j := Session(AwaitInit, Start(k.dir), [ask], []);
    var w := Streams([], down, [], up);
    assert WriteMsgs(sum32, [ask]) == WriteHead(ask.h) by {
      assert [ask][1..] == [];
      assert WriteHead(ask.h) + [] == WriteHead(ask.h);
    }
    assert down == [] + (WriteMsgs(sum32, j.down) + Sends(sum32, k.files, j.s, up).out) + [];
    assert up == [] + (WriteHeads([]) + Receives(sum32, j.r, false, down).out) + [];
    InitHolds(k, j);
    ToTheEnd(k, sum32, j, w, Tails([], []));
  }

  // ------------------------------------------------------------ such streams exist

  /** The step before: the sender reads one header more. */
  lemma SenderBack(
      k: Setup, sum32: Checksum32, j: Session, padDown: bytes, padUp: bytes, j': Session, w': Streams, z: Tails)
      returns (w: Streams)
    requires WellFormed(k.files, j.s) && Active(j.s) && j.up != [] && Pad(padDown) && Pad(padUp) && k.sum == Summed(sum32)
    requires var t := Sending.Step(k.files, k.sum, j.s, j.up[0]);
             j' == Session(t.state, j.r, j.down + t.out, j.up[1..])
    requires Joined(k, sum32, j', w', z) && w'.padDown == padDown && w'.padUp == Behind(Control(j.up[0]))
    ensures Joined(k, sum32, j, w, z) && w.padDown == padDown && w.padUp == padUp
  {
    hide Sending.Step, Receives, WriteHead, WriteMsgs, ReadHeader, Behind;
    var h := j.up[0];
    var t := Sending.Step(k.files, k.sum, j.s, h);
    var tail := WriteHeads(j.up[1..]) + Receives(sum32, j.r, false, w'.down).out + z.up;
    w := Streams(padDown, w'.down, padUp, padUp + WriteHead(h) + tail);
    assert w'.up == Behind(Control(h)) + tail;
    var pad := HeadReads(sum32, padUp, h, tail);
    var later := Sends(sum32, k.files, t.state, w'.up).out;
    assert Sends(sum32, k.files, j.s, w.up).out == WriteMsgs(sum32, t.out) + later;
    WriteMsgsConcat(sum32, j.down, t.out);
    Associate(WriteMsgs(sum32, j.down), WriteMsgs(sum32, t.out), later);
    Reassociate(padUp, WriteHead(h), WriteHeads(j.up[1..]), Receives(sum32, j.r, false, w'.down).out, z.up);
  }

  lemma Associate(a: bytes, b: bytes, c: bytes)
    ensures a + (b + c) == a + b + c
  {
  }

  lemma Reassociate(a: bytes, b: bytes, c: bytes, d: bytes, e: bytes)
    ensures a + b + (c + d + e) == a + (b + c + d) + e
  {
  }

  lemma ReceiverBack(
      k: Setup, sum32: Checksum32, j: Session, padDown: bytes, padUp: bytes, j': Session, w': Streams, z: Tails)
      returns (w: Streams)
    requires WellFormed(k.files, j.s) && j.down != [] && Fits(j.r.phase, Arrives(j.down[0])) && Fitting(j.down)
    requires Pad(padDown) && Pad(padUp) && k.sum == Summed(sum32)
    requires var t := Receiving.Step(k.sum, j.r, Arrives(j.down[0]));
             j' == Session(j.s, t.state, j.down[1..], j.up + t.out)
    requires Joined(k, sum32, j', w', z) && w'.padDown == Behind(j.down[0]) && w'.padUp == padUp
    ensures Joined(k, sum32, j, w, z) && w.padDown == padDown && w.padUp == padUp
  {
    hide Receiving.Step, Sends, WriteMsg, WriteHeads, Take, Behind;
    var m := j.down[0];
    var t := Receiving.Step(k.sum, j.r, Arrives(m));
    var tail := WriteMsgs(sum32, j.down[1..]) + Sends(sum32, k.files, j.s, w'.up).out + z.down;
    w := Streams(padDown, padDown + WriteMsg(sum32, m) + tail, padUp, w'.up);
    assert w'.down == Behind(m) + tail;
    var pad := MessageArrives(sum32, padDown, j.r.phase, m, tail);
    var later := Receives(sum32, t.state, false, w'.down).out;
    assert Receives(sum32, j.r, false, w.down).out == WriteHeads(t.out) + later;
    WriteHeadsConcat(j.up, t.out);
    Associate(WriteHeads(j.up), WriteHeads(t.out), later);
    Reassociate(padDown, WriteMsg(sum32, m), WriteMsgs(sum32, j.down[1..]), Sends(sum32, k.files, j.s, w'.up).out, z.down);
  }

  lemma AtTheEnd(k: Setup, sum32: Checksum32, j: Session, padDown: bytes, padUp: bytes, z: Tails) returns (w: Streams)
    requires WellFormed(k.files, j.s) && Delivered(j) && padDown == [] && padUp == [] && k.sum == Summed(sum32)
    ensures Joined(k, sum32, j, w, z) && w.padDown == padDown && w.padUp == padUp
  {
    hide WriteMsgs, WriteHeads;
    w := Streams(padDown, padDown + (WriteMsgs(sum32, j.down) + []) + z.down,
                 padUp, padUp + (WriteHeads(j.up) + []) + z.up);
  }

  lemma {:induction false} StreamsFrom(
      k: Setup, sum32: Checksum32, j: Session, padDown: bytes, padUp: bytes, z: Tails)
      returns (w: Streams)
    requires Welcome(k) && ShortNames(k) && Hopeful(k, j) && Fitting(j.down) && k.sum == Summed(sum32)
    requires Pad(padDown) && Pad(padUp)
    requires (j.s.Sent? ==> padUp == []) && (j.r.phase.Finished? ==> padDown == [])
    ensures Joined(k, sum32, j, w, z) && w.padDown == padDown && w.padUp == padUp
    decreases Rank(k, j)
  {
    hide Sync, ShortNames, Welcome, Hopeful, Joined, Rank, Sending.Step, Receiving.Step, GentleMove, SenderMoves,
      ReceiverMoves, Behind, Pad;
    HopefulForm(k, j);
    if Delivered(j) {
      w := AtTheEnd(k, sum32, j, padDown, padUp, z);
      return;
    }
    SomebodyWaits(k, j);
    if j.up != [] {
      var j' := SenderGoesOn(k, j);
      HopeKept(k, j, j');
      BehindIsPad(Control(j.up[0]));
      SentIsClean(k, j.s, j.up[0]);
      var w' := StreamsFrom(k, sum32, j', padDown, Behind(Control(j.up[0])), z);
      w := SenderBack(k, sum32, j, padDown, padUp, j', w', z);
    } else {
      var j' := ReceiverGoesOn(k, j);
      HopeKept(k, j, j');
      BehindIsPad(j.down[0]);
      FinishedIsClean(k, j.r, j.down[0]);
      var w' := StreamsFrom(k, sum32, j', Behind(j.down[0]), padUp, z);
      w := ReceiverBack(k, sum32, j, padDown, padUp, j', w', z);
    }
  }

  lemma HopefulForm(k: Setup, j: Session)
    requires Hopeful(k, j)
    ensures WellFormed(k.files, j.s) && Sync(k, j) && !Lost(j)
  {
    hide Idle, Partial;
    if Delivered(j) {
    } else {
      SomebodyWaits(k, j);
    }
  }

  lemma BehindIsPad(m: Msg)
    ensures Pad(Behind(m))
  {
  }

  lemma SenderGoesOn(k: Setup, j: Session) returns (j': Session)
    requires WellFormed(k.files, j.s) && Active(j.s) && j.up != [] && ShortNames(k) && Fitting(j.down)
    ensures GentleMove(k, j, j') && Fitting(j'.down)
    ensures var t := Sending.Step(k.files, k.sum, j.s, j.up[0]);
            j' == Session(t.state, j.r, j.down + t.out, j.up[1..])
  {
    hide Sending.Step, ShortNames;
    var t := Sending.Step(k.files, k.sum, j.s, j.up[0]);
    j' := Session(t.state, j.r, j.down + t.out, j.up[1..]);
    SenderFits(k, j.s, j.up[0]);
    assert j'.down[|j.down|..] == t.out;
    assert Damaged !in j'.down;
    assert SenderMoves(k, j, j');
  }

  lemma ReceiverGoesOn(k: Setup, j: Session) returns (j': Session)
    requires j.down != [] && Fits(j.r.phase, Arrives(j.down[0])) && Fitting(j.down)
    ensures GentleMove(k, j, j') && Fitting(j'.down)
    ensures var t := Receiving.Step(k.sum, j.r, Arrives(j.down[0]));
            j' == Session(j.s, t.state, j.down[1..], j.up + t.out)
  {
    hide Receiving.Step;
    var t := Receiving.Step(k.sum, j.r, Arrives(j.down[0]));
    j' := Session(j.s, t.state, j.down[1..], j.up + t.out);
    assert ReceiverMoves(k, j, j');
  }

  /** For all files the destination accepts there are two streams that answer each other. */
  lemma StreamsExist(k: Setup, sum32: Checksum32) returns (down: bytes, up: bytes)
    requires Welcome(k) && ShortNames(k) && k.sum == Summed(sum32)
    ensures down == SendsAll(sum32, k.files, None, up).out && up == ReceivesAll(sum32, k.dir, None, down).out
    ensures SendsAll(sum32, k.files, None, up).state.Sent?
    ensures ReceivesAll(sum32, k.dir, None, down).state.dir == Expected(k, |k.files|)
  {
    hide WriteHead, Sends, Receives, ShortNames, Welcome, Expected, Sound;
    var ask := Control(Head(ZRQINIT, 0));
    var j := Session(AwaitInit, Start(k.dir), [ask], []);
    BeginsHopeful(k, j);
    var w := StreamsFrom(k, sum32, j, [], [], Tails([], []));
    down, up := w.down, w.up;
    assert WriteMsgs(sum32, [ask]) == WriteHead(ask.h) by {
      assert [ask][1..] == [];
      assert WriteHead(ask.h) + [] == WriteHead(ask.h);
    }
    assert down == WriteHead(ask.h) + Sends(sum32, k.files, AwaitInit, up).out;
    assert up == Receives(sum32, j.r, false, down).out;
    WelcomeSound(k);
    WireDelivery(k, sum32, down, up);
  }

  lemma BeginsHopeful(k: Setup, j: Session)
    requires Begins(k, j)
    ensures Hopeful(k, j)
  {
    InitHolds(k, j);
  }
}
