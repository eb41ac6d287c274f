/** The two machines driven by bytes: what each side writes, keeps and leaves for any stream. */
module Driving {
  import opened Bytes
  import opened Wire
  import opened RoundTrip
  import opened Sending
  import opened Receiving

  // ------------------------------------------------------- heads and headers

  function Position(d: Quad): U32 {
    (d[0] as int) + 0x100 * (d[1] as int) + 0x1_0000 * (d[2] as int) + 0x100_0000 * (d[3] as int)
  }

  function LittleEndian(n: U32): Quad {
    [n % 0x100, n / 0x100 % 0x100, n / 0x1_0000 % 0x100, n / 0x100_0000]
  }

  lemma PositionOf(n: U32)
    ensures Position(LittleEndian(n)) == n
  {
    assert n / 0x100 / 0x100 == n / 0x1_0000 && n / 0x1_0000 / 0x100 == n / 0x100_0000;
  }

  function HeadOf(h: Header): Head { Head(h.kind, Position(h.data)) }

  function HeaderOf(h: Head): Header { Header(h.kind, LittleEndian(h.pos), false) }

  /** The checksum of a file as the number that headers carry. */
  function Summed(sum32: Checksum32): Sum32 { b => Position(sum32(b)) }

  function WriteHead(h: Head): bytes { EncodeHeader(HeaderOf(h)) }

  function WriteHeads(hs: seq<Head>): bytes {
    if hs == [] then [] else WriteHead(hs[0]) + WriteHeads(hs[1..])
  }

  function WriteMsg(sum32: Checksum32, m: Msg): bytes {
    match m
    case Control(h) => WriteHead(h)
    case Packet(data, end) => EncodeData(sum32, data, end, false)
    case Octet(v) => [v]
    case Damaged => []
  }

  function WriteMsgs(sum32: Checksum32, ms: seq<Msg>): bytes {
    if ms == [] then [] else WriteMsg(sum32, ms[0]) + WriteMsgs(sum32, ms[1..])
  }

  // --------------------------------------------------------------- receiving

  /** How a side ends: in which state, with what written and what left unread. */
  datatype Outcome<S> = Outcome(state: S, out: bytes, rest: bytes)

  function Emit<S>(b: bytes, o: Outcome<S>): Outcome<S> { o.(out := b + o.out) }

  /** One read of the kind a phase makes, with the checksum width of the last header. */
  function Take(sum32: Checksum32, p: Phase, wide: bool, s: bytes): (t: (Input, bool, bytes))
    requires !p.Finished? && !p.Stopped?
    ensures Fits(p, t.0) && |t.2| <= |s|
    ensures t.0.GotHead? || t.0.GotData? || t.0.GotByte? ==> |t.2| < |s|
  {
    if p.Opening? || p.Ready? || p.Resuming? then
      var h := ReadHeader(sum32, s);
      if h.result.Ok? then (GotHead(HeadOf(h.result.value)), h.result.value.wide, h.rest)
      else (NoHead, wide, h.rest)
    else if p.Closing? || p.ClosingO? then
      var b := Raw(s);
      if b.result.Ok? then (GotByte(b.result.value), wide, b.rest)
      else (NoByte(true), wide, b.rest)
    else
      var d := ReadData(sum32, wide, s);
      if d.result.Ok? then (GotData(d.result.value.0, d.result.value.1), wide, d.rest)
      else (NoData, wide, d.rest)
  }

  /** The receiver on a stream of bytes, to its end. */
  function Receives(sum32: Checksum32, r: Receiver, wide: bool, s: bytes): (o: Outcome<Receiver>)
    ensures o.state.phase.Finished? || o.state.phase.Stopped?
    decreases |s|, if r.phase.Data? then 2 else if r.phase.Stopped? || r.phase.Finished? then 0 else 1
  {
    if r.phase.Finished? || r.phase.Stopped? then Outcome(r, [], s) else
    var (i, wide', rest) := Take(sum32, r.phase, wide, s);
    var t := Receiving.Step(Summed(sum32), r, i);
    Emit(WriteHeads(t.out), Receives(sum32, t.state, wide', rest))
  }

  /** Whatever the bytes are, the receiver's end is the end of a run of its machine. */
  lemma {:induction false} ReceivesIsRun(sum32: Checksum32, dir: Dir, before: seq<Input>, wide: bool, s: bytes)
      returns (inputs: seq<Input>)
    ensures before <= inputs
    ensures var w := Run(Summed(sum32), dir, before);
            Receives(sum32, w.r, wide, s).state == Run(Summed(sum32), dir, inputs).r
    decreases |s|, var r := Run(Summed(sum32), dir, before).r;
                   if r.phase.Data? then 2 else if r.phase.Stopped? || r.phase.Finished? then 0 else 1
  {
    hide Receiving.Step;
    var sum := Summed(sum32);
    var w := Run(sum, dir, before);
    if w.r.phase.Finished? || w.r.phase.Stopped? {
      inputs := before;
    } else {
      var (i, wide', rest) := Take(sum32, w.r.phase, wide, s);
      assert (before + [i])[..|before|] == before;
      assert Run(sum, dir, before + [i]).r == Receiving.Step(sum, w.r, i).state;
      StepCalms(sum, w.r, i);
      inputs := ReceivesIsRun(sum32, dir, before + [i], wide', rest);
    }
  }

  /** A read that takes nothing ends the data phase or the session. */
  lemma StepCalms(sum: Sum32, r: Receiver, i: Input)
    requires Fits(r.phase, i)
    ensures i.NoHead? || i.NoData? || i == NoByte(true) ==>
            var p := Receiving.Step(sum, r, i).state.phase;
            if r.phase.Data? then p.Ready? else p.Stopped? || p.Finished?
  {
  }

  // ----------------------------------------------------------------- sending

  /** The sender on a stream of bytes, to its end. */
  function Sends(sum32: Checksum32, files: seq<Source>, s: State, stream: bytes): (o: Outcome<State>)
    requires WellFormed(files, s)
    ensures !Active(o.state)
    decreases |stream|
  {
    if !Active(s) then Outcome(s, [], stream) else
    var h := ReadHeader(sum32, stream);
    if h.result.Err? then Outcome(State.Failed, [], h.rest) else
    var t := Sending.Step(files, Summed(sum32), s, HeadOf(h.result.value));
    Emit(WriteMsgs(sum32, t.out), Sends(sum32, files, t.state, h.rest))
  }

  // ---------------------------------------------------------- from the start

  /** The receiver's end when a first header may have been read for it already. */
  function ReceivesAll(sum32: Checksum32, dir: Dir, initial: Option<Header>, s: bytes): Outcome<Receiver> {
    match initial
    case None => Receives(sum32, Start(dir), false, s)
    case Some(h) =>
      var t := Receiving.Step(Summed(sum32), Start(dir), GotHead(HeadOf(h)));
      Emit(WriteHeads(t.out), Receives(sum32, t.state, h.wide, s))
  }

  /** The sender's end when the receiver's first header may have been read for it already. */
  function SendsAll(sum32: Checksum32, files: seq<Source>, initial: Option<Header>, s: bytes): Outcome<State> {
    match initial
    case None => Emit(WriteHead(Head(ZRQINIT, 0)), Sends(sum32, files, AwaitInit, s))
    case Some(h) =>
      var t := Sending.Step(files, Summed(sum32), AwaitInit, HeadOf(h));
      Emit(WriteMsgs(sum32, t.out), Sends(sum32, files, t.state, s))
  }

  // ------------------------------------------------------- one turn at a time

  lemma WriteOne(h: Head)
    ensures WriteHeads([h]) == WriteHead(h)
  {
    assert [h][1..] == [];
    assert WriteHead(h) + [] == WriteHead(h);
  }

  /** The end of a receiver is the end of its machine after one more read. */
  lemma ReceiverTurn(sum32: Checksum32, sent: bytes, r: Receiver, wide: bool, s: bytes)
    requires !r.phase.Finished? && !r.phase.Stopped?
    ensures var (i, wide', rest) := Take(sum32, r.phase, wide, s);
            var t := Receiving.Step(Summed(sum32), r, i);
            && Emit(sent, Receives(sum32, r, wide, s))
               == Emit(sent + WriteHeads(t.out), Receives(sum32, t.state, wide', rest))
            && (t.out == [] ==> sent + WriteHeads(t.out) == sent)
            && (|t.out| == 1 ==> WriteHeads(t.out) == WriteHead(t.out[0]))
  {
    var (i, wide', rest) := Take(sum32, r.phase, wide, s);
    var t := Receiving.Step(Summed(sum32), r, i);
    if |t.out| == 1 {
      assert t.out == [t.out[0]];
      WriteOne(t.out[0]);
    }
    var later := Receives(sum32, t.state, wide', rest).out;
    assert sent + (WriteHeads(t.out) + later) == (sent + WriteHeads(t.out)) + later;
  }

  lemma SenderTurn(sum32: Checksum32, files: seq<Source>, sent: bytes, s: State, stream: bytes)
    requires WellFormed(files, s) && Active(s)
    requires ReadHeader(sum32, stream).result.Ok?
    ensures var h := ReadHeader(sum32, stream);
            var t := Sending.Step(files, Summed(sum32), s, HeadOf(h.result.value));
            Emit(sent, Sends(sum32, files, s, stream))
            == Emit(sent + WriteMsgs(sum32, t.out), Sends(sum32, files, t.state, h.rest))
  {
    var h := ReadHeader(sum32, stream);
    var t := Sending.Step(files, Summed(sum32), s, HeadOf(h.result.value));
    var later := Sends(sum32, files, t.state, h.rest).out;
    assert sent + (WriteMsgs(sum32, t.out) + later) == (sent + WriteMsgs(sum32, t.out)) + later;
  }
}
