/**
 A session on bytes over a line that damages subpackets: each side reads frames from what has
 arrived, and a side that finds no whole frame waits.
 */
module DamagedLine {
  import opened Bytes
  import opened Crc16
  import opened Wire
  import opened RoundTrip
  import opened Metadata
  import opened Sending
  import opened Receiving
  import opened Session
  import opened SessionProofs
  import opened Driving
  import opened OnTheWire

  // ------------------------------------------------------------------ the line

  /**
   What a subpacket may become: another payload, escaped as it should be, which the checksum
   tells from the one that was sent, and flow control anywhere.
   */
  ghost predicate Damages(sum32: Checksum32, data: bytes, end: Marker, b: bytes) {
    exists got: bytes, w: bytes :: Garbled(sum32, data, got, end, w) && b == w + DataTail(end)
  }

  predicate Garbled(sum32: Checksum32, data: bytes, got: bytes, end: Marker, w: bytes) {
    && |got| <= MAX_SUBPACKET && EndsClean(w) && Strip(w) == Escape(got) + Ending(sum32, false, data, end)
    && Check(sum32, false, got + [end]) != Check(sum32, false, data + [end])
  }

  /** What arrives of one message. */
  ghost predicate OneArrives(sum32: Checksum32, m: Msg, b: bytes) {
    b == WriteMsg(sum32, m) || (m.Packet? && Damages(sum32, m.data, m.end, b))
  }

  ghost predicate AllArrive(sum32: Checksum32, ms: seq<Msg>, b: bytes) {
    if ms == [] then b == [] else
    exists x: bytes, y: bytes :: b == x + y && OneArrives(sum32, ms[0], x) && AllArrive(sum32, ms[1..], y)
  }

  /** Any change of one payload byte, or of two next to each other, is such a damage. */
  lemma BurstDamages(sum32: Checksum32, data: bytes, got: bytes, at: nat, end: Marker)
    requires |got| == |data| <= MAX_SUBPACKET && got != data && at < |data|
    requires forall i | 0 <= i < |data| && i != at && i != at + 1 :: got[i] == data[i]
    ensures Damages(sum32, data, end, Escape(got) + Ending(sum32, false, data, end) + DataTail(end))
  {
    hide Crc, Strip, Escape, WellEscaped;
    var check := Check(sum32, false, data + [end]);
    var w := Escape(got) + Ending(sum32, false, data, end);
    MarkWellEscaped(end);
    EscapeWell(got);
    EscapeWell(check);
    WellEscapedConcat([ZDLE, end], Escape(check));
    WellEscapedConcat(Escape(got), [ZDLE, end] + Escape(check));
    StripOfPlain(w);
    PlainEndsClean(w);
    assert (got + [end])[..|got|] == got && (data + [end])[..|data|] == data;
    BurstDetected(got + [end], data + [end], at);
    DigitsDiffer(got + [end], data + [end]);
    assert Garbled(sum32, data, got, end, w);
  }

  lemma MarkWellEscaped(end: Marker)
    ensures WellEscaped([ZDLE, end])
  {
  }

  lemma PlainEndsClean(w: bytes)
    requires WellEscaped(w)
    ensures EndsClean(w)
  {
    assert w != [] ==> WellEscapedAt(w, |w| - 1);
  }

  // ------------------------------------------------------------------- steps

  /** The two sides, and the bytes that have arrived and are not read. */
  datatype Link = Link(s: State, r: Receiver, wide: bool, down: bytes, up: bytes)

  predicate Broken(c: Link) { c.s.Failed? || c.r.phase.Stopped? }

  /** The receiver has to wait for more. */
  predicate Starved(sum32: Checksum32, p: Phase, wide: bool, b: bytes)
    requires !p.Finished? && !p.Stopped?
  {
    if p.Opening? || p.Ready? || p.Resuming? then ReadHeader(sum32, b).result == Err(EndOfStream)
    else if p.Closing? || p.ClosingO? then Raw(b).result == Err(EndOfStream)
    else ReadData(sum32, wide, b).result == Err(EndOfStream)
  }

  ghost predicate SenderReads(k: Setup, sum32: Checksum32, c: Link, c': Link) {
    && WellFormed(k.files, c.s) && Active(c.s) && ReadHeader(sum32, c.up).result != Err(EndOfStream)
    && var h := ReadHeader(sum32, c.up);
       if h.result.Err? then c' == c.(s := State.Failed, up := h.rest) else
       var t := Sending.Step(k.files, k.sum, c.s, HeadOf(h.result.value));
       c' == Link(t.state, c.r, c.wide, c'.down, h.rest)
       && exists b: bytes :: AllArrive(sum32, t.out, b) && c'.down == c.down + b
  }

  ghost predicate ReceiverReads(k: Setup, sum32: Checksum32, c: Link, c': Link) {
    && !c.r.phase.Finished? && !c.r.phase.Stopped? && !Starved(sum32, c.r.phase, c.wide, c.down)
    && var (i, wide, rest) := Take(sum32, c.r.phase, c.wide, c.down);
       var t := Receiving.Step(k.sum, c.r, i);
       c' == Link(c.s, t.state, wide, rest, c.up + WriteHeads(t.out))
  }

  ghost predicate LinkMoves(k: Setup, sum32: Checksum32, c: Link, c': Link) {
    SenderReads(k, sum32, c, c') || ReceiverReads(k, sum32, c, c')
  }

  /** Nothing is damaged but a chunk that may still be repeated. */
  ghost predicate Spared(k: Setup, sum32: Checksum32, c: Link, c': Link) {
    && WellFormed(k.files, c.s) && Active(c.s) && ReadHeader(sum32, c.up).result.Ok?
    && var t := Sending.Step(k.files, k.sum, c.s, HeadOf(ReadHeader(sum32, c.up).result.value));
       c'.down == c.down + WriteMsgs(sum32, t.out) || (t.state.AwaitAck? && t.state.retries < MAX_RETRIES)
  }

  ghost predicate GentleLinkMoves(k: Setup, sum32: Checksum32, c: Link, c': Link) {
    ReceiverReads(k, sum32, c, c') || (SenderReads(k, sum32, c, c') && Spared(k, sum32, c, c'))
  }

  // ---------------------------------------------------------- messages of bytes

  ghost predicate Spelled(sum32: Checksum32, m: Msg, b: bytes) {
    if m.Damaged? then exists data: bytes, end: Marker :: Damages(sum32, data, end, b) else b == WriteMsg(sum32, m)
  }

  ghost predicate Spells(sum32: Checksum32, ms: seq<Msg>, b: bytes) {
    if ms == [] then b == [] else
    exists x: bytes, y: bytes :: b == x + y && Spelled(sum32, ms[0], x) && Spells(sum32, ms[1..], y)
  }

  /** Everything in flight is something the codec reads. */
  predicate Readable(ms: seq<Msg>) {
    forall m | m in ms :: m.Damaged? || (OnTheWire.Small(m) && (m.Octet? ==> !Flow(m.v)))
  }

  lemma SpellsFirst(sum32: Checksum32, ms: seq<Msg>, b: bytes) returns (x: bytes, y: bytes)
    requires Spells(sum32, ms, b) && ms != []
    ensures b == x + y && Spelled(sum32, ms[0], x) && Spells(sum32, ms[1..], y)
  {
    hide Spelled;
    x, y :| b == x + y && Spelled(sum32, ms[0], x) && Spells(sum32, ms[1..], y);
  }

  lemma SpellsMore(sum32: Checksum32, m: Msg, x: bytes, ms: seq<Msg>, y: bytes)
    requires Spelled(sum32, m, x) && Spells(sum32, ms, y)
    ensures Spells(sum32, [m] + ms, x + y)
  {
    hide Spelled;
    assert ([m] + ms)[1..] == ms;
  }

  lemma {:induction false} SpellsConcat(sum32: Checksum32, a: seq<Msg>, x: bytes, b: seq<Msg>, y: bytes)
    requires Spells(sum32, a, x) && Spells(sum32, b, y)
    ensures Spells(sum32, a + b, x + y)
    decreases |a|
  {
    hide Spelled, Spells;
    if a == [] {
      assert x == [] by {
        SpellsNothing(sum32, x);
      }
      assert a + b == b && x + y == y;
    } else {
      var x1, x2 := SpellsFirst(sum32, a, x);
      SpellsConcat(sum32, a[1..], x2, b, y);
      SpellsMore(sum32, a[0], x1, a[1..] + b, x2 + y);
      assert a + b == [a[0]] + (a[1..] + b);
      assert x + y == x1 + (x2 + y);
    }
  }

  lemma SpellsNothing(sum32: Checksum32, b: bytes)
    ensures Spells(sum32, [], b) <==> b == []
  {
  }

  /** What arrives spells what was sent, some subpackets damaged. */
  lemma {:induction false} ArrivalSpells(sum32: Checksum32, sent: seq<Msg>, b: bytes) returns (got: seq<Msg>)
    requires AllArrive(sum32, sent, b) && Fitting(sent)
    ensures Transmits(sent, got) && Spells(sum32, got, b) && Readable(got)
    ensures b == WriteMsgs(sum32, sent) ==> got == sent
    decreases |sent|
  {
    hide Damages, WriteMsg;
    got := [];
    if b == WriteMsgs(sum32, sent) {
      got := sent;
      WrittenSpells(sum32, sent);
    } else if sent != [] {
      var x: bytes, y: bytes :| b == x + y && OneArrives(sum32, sent[0], x) && AllArrive(sum32, sent[1..], y);
      assert OnTheWire.Small(sent[0]) by {
        assert sent[0] in sent;
      }
      var first := if x == WriteMsg(sum32, sent[0]) then sent[0] else Damaged;
      assert Spelled(sum32, first, x);
      var rest := ArrivalSpells(sum32, sent[1..], y);
      got := [first] + rest;
      assert got[1..] == rest;
    }
  }

  lemma {:induction false} WrittenSpells(sum32: Checksum32, sent: seq<Msg>)
    requires Fitting(sent)
    ensures Spells(sum32, sent, WriteMsgs(sum32, sent)) && Readable(sent) && Damaged !in sent
    decreases |sent|
  {
    hide WriteMsg;
    if sent != [] {
      var rest := sent[1..];
      assert OnTheWire.Small(sent[0]) by {
        assert sent[0] in sent;
      }
      WrittenSpells(sum32, rest);
      SpellsMore(sum32, sent[0], WriteMsg(sum32, sent[0]), rest, WriteMsgs(sum32, rest));
      assert sent == [sent[0]] + rest;
    }
  }

  /** An undamaged line. */
  lemma {:induction false} WrittenArrives(sum32: Checksum32, sent: seq<Msg>)
    ensures AllArrive(sum32, sent, WriteMsgs(sum32, sent))
    decreases |sent|
  {
    hide Damages, WriteMsg;
    if sent != [] {
      WrittenArrives(sum32, sent[1..]);
      assert OneArrives(sum32, sent[0], WriteMsg(sum32, sent[0]));
    }
  }

  // ------------------------------------------------------------------- reading

  /** A damaged subpacket is refused, and the reader stops right behind it. */
  lemma DamageReads(sum32: Checksum32, pad: bytes, data: bytes, end: Marker, b: bytes, tail: bytes)
    requires Pad(pad) && Damages(sum32, data, end, b)
    ensures ReadData(sum32, false, pad + b + tail) == Parsed(Err(BadChecksum), DataTail(end) + tail)
  {
    hide ReadData, Strip, EndsClean, Check, Escape, Ending;
    var got: bytes, w: bytes :| Garbled(sum32, data, got, end, w) && b == w + DataTail(end);
    DamagedSubpacket(sum32, false, data, got, end, w, DataTail(end) + tail);
    assert b + tail == w + (DataTail(end) + tail);
    if pad == [] {
      assert pad + b + tail == b + tail;
    } else {
      assert pad + b + tail == [XON] + (b + tail);
      LeadingFlow(sum32, false, b + tail);
    }
  }

  /** The receiver takes a message from the bytes that spell it. */
  lemma SpelledArrives(sum32: Checksum32, pad: bytes, p: Phase, m: Msg, b: bytes, tail: bytes) returns (pad': bytes)
    requires Pad(pad) && Spelled(sum32, m, b) && Readable([m]) && Fits(p, Arrives(m))
    ensures Pad(pad') && Take(sum32, p, false, pad + b + tail) == (Arrives(m), false, pad' + tail)
    ensures !Starved(sum32, p, false, pad + b + tail)
  {
    hide ReadHeader, ReadData, WriteMsg, Damages;
    assert m in [m];
    if m.Damaged? {
      var data: bytes, end: Marker :| Damages(sum32, data, end, b);
      DamageReads(sum32, pad, data, end, b, tail);
      pad' := DataTail(end);
    } else {
      pad' := MessageArrives(sum32, pad, p, m, tail);
    }
  }

  /** With nothing but flow control to read a side waits. */
  lemma NothingToRead(sum32: Checksum32, pad: bytes)
    requires Pad(pad)
    ensures ReadHeader(sum32, pad).result == Err(EndOfStream) && ReadData(sum32, false, pad).result == Err(EndOfStream)
    ensures Raw(pad).result == Err(EndOfStream)
  {
    assert Raw([]) == Parsed(Err(EndOfStream), []);
    assert pad != [] ==> pad[1..] == [];
    assert Raw(pad) == Parsed(Err(EndOfStream), []);
    hide Raw;
    assert ReadToken(pad).result == Err(EndOfStream);
    assert HeaderFrom(sum32, pad, 0).result == Err(EndOfStream);
  }

  // --------------------------------------------------------------- simulation

  /** `c` is the session `j`, with flow control in front of what is unread. */
  ghost predicate Shows(sum32: Checksum32, j: Session, c: Link, padDown: bytes, padUp: bytes) {
    && c.s == j.s && c.r == j.r && !c.wide && Pad(padDown) && Pad(padUp) && Readable(j.down)
    && c.up == padUp + WriteHeads(j.up)
    && padDown <= c.down && Spells(sum32, j.down, c.down[|padDown|..])
  }

  /** Only one side has something to read. */
  lemma OneWaits(k: Setup, j: Session)
    requires Sync(k, j) && !Lost(j) && j.up != []
    ensures j.down == [] && Active(j.s)
  {
    hide Idle, Partial, Comparing, Format, Carries;
  }

  lemma SenderReadsMessage(k: Setup, sum32: Checksum32, j: Session, c: Link, c': Link, padDown: bytes, padUp: bytes)
      returns (j': Session, padUp': bytes)
    requires Shows(sum32, j, c, padDown, padUp) && ShortNames(k) && SenderReads(k, sum32, c, c')
    ensures SenderMoves(k, j, j') && Shows(sum32, j', c', padDown, padUp')
    ensures Spared(k, sum32, c, c') ==> GentleMove(k, j, j')
  {
    hide ReadHeader, Spells, AllArrive, Sending.Step, WriteHead, WriteMsgs, ShortNames, Readable;
    if j.up == [] {
      assert c.up == padUp;
      NothingToRead(sum32, padUp);
      assert false;
    }
    var h := j.up[0];
    var tail := WriteHeads(j.up[1..]);
    assert c.up == padUp + WriteHead(h) + tail;
    padUp' := HeadReads(sum32, padUp, h, tail);
    var t := Sending.Step(k.files, k.sum, c.s, h);
    var b: bytes :| AllArrive(sum32, t.out, b) && c'.down == c.down + b;
    SenderFits(k, j.s, h);
    var got := ArrivalSpells(sum32, t.out, b);
    j' := Session(t.state, j.r, j.down + got, j.up[1..]);
    assert j'.down[..|j.down|] == j.down && j'.down[|j.down|..] == got;
    SpellsConcat(sum32, j.down, c.down[|padDown|..], got, b);
    assert c'.down[|padDown|..] == c.down[|padDown|..] + b;
    ReadableJoin(j.down, got);
    NothingBroken(k, j.s, h);
    assert c'.down == c.down + WriteMsgs(sum32, t.out) ==> b == WriteMsgs(sum32, t.out) by {
      assert c'.down[|c.down|..] == b;
      assert (c.down + WriteMsgs(sum32, t.out))[|c.down|..] == WriteMsgs(sum32, t.out);
    }
  }

  lemma ReadableJoin(a: seq<Msg>, b: seq<Msg>)
    requires Readable(a) && Readable(b)
    ensures Readable(a + b)
  {
  }

  lemma ReceiverReadsMessage(k: Setup, sum32: Checksum32, j: Session, c: Link, c': Link, padDown: bytes, padUp: bytes)
      returns (j': Session, padDown': bytes)
    requires Shows(sum32, j, c, padDown, padUp) && ReceiverReads(k, sum32, c, c')
    requires j.down != [] ==> Fits(j.r.phase, Arrives(j.down[0]))
    ensures ReceiverMoves(k, j, j') && Shows(sum32, j', c', padDown', padUp)
  {
    hide ReadHeader, ReadData, Receiving.Step, WriteHeads, WriteMsg, Damages, Take, Starved;
    var unread := c.down[|padDown|..];
    assert c.down == padDown + unread;
    if j.down == [] {
      assert c.down == padDown;
      Starves(sum32, padDown, c.r.phase);
      assert false;
    }
    var m := j.down[0];
    var x: bytes, y: bytes :| unread == x + y && Spelled(sum32, m, x) && Spells(sum32, j.down[1..], y);
    assert c.down == padDown + x + y;
    assert m in j.down;
    padDown' := SpelledArrives(sum32, padDown, j.r.phase, m, x, y);
    var t := Receiving.Step(k.sum, j.r, Arrives(m));
    j' := Session(j.s, t.state, j.down[1..], j.up + t.out);
    WriteHeadsConcat(j.up, t.out);
    assert c'.down[|padDown'|..] == y;
    assert c'.up == padUp + WriteHeads(j.up) + WriteHeads(t.out) == padUp + (WriteHeads(j.up) + WriteHeads(t.out));
  }

  lemma Starves(sum32: Checksum32, pad: bytes, p: Phase)
    requires Pad(pad) && !p.Finished? && !p.Stopped?
    ensures Starved(sum32, p, false, pad)
  {
    hide ReadHeader, ReadData;
    NothingToRead(sum32, pad);
  }

  /** Whatever the line makes of the subpackets, a step on bytes is a move of the session. */
  lemma StepIsMove(k: Setup, sum32: Checksum32, j: Session, c: Link, c': Link, padDown: bytes, padUp: bytes)
      returns (j': Session, padDown': bytes, padUp': bytes)
    requires Shows(sum32, j, c, padDown, padUp) && ShortNames(k) && LinkMoves(k, sum32, c, c')
    requires Sync(k, j) && !Lost(j)
    ensures Moves(k, j, j') && Shows(sum32, j', c', padDown', padUp')
    ensures GentleLinkMoves(k, sum32, c, c') ==> GentleMove(k, j, j')
  {
    hide SenderReads, ReceiverReads, Shows, Sync, SenderMoves, ReceiverMoves, ShortNames, Spared;
    padDown', padUp' := padDown, padUp;
    if SenderReads(k, sum32, c, c') && !ReceiverReads(k, sum32, c, c') {
      j', padUp' := SenderReadsMessage(k, sum32, j, c, c', padDown, padUp);
    } else {
      DownFits(k, j);
      j', padDown' := ReceiverReadsMessage(k, sum32, j, c, c', padDown, padUp);
    }
  }

  lemma DownFits(k: Setup, j: Session)
    requires Sync(k, j) && !Lost(j)
    ensures j.down != [] ==> Fits(j.r.phase, Arrives(j.down[0]))
  {
    hide Sync;
    if j.up != [] {
      OneWaits(k, j);
    } else if !Delivered(j) {
      SomebodyWaits(k, j);
    } else {
      DeliveredIsOver(k, j);
    }
  }

  lemma DeliveredIsOver(k: Setup, j: Session)
    requires Sync(k, j) && Delivered(j)
    ensures j.down == []
  {
  }

  // ---------------------------------------------------------------------- runs

  /** The sender has written its query, and nothing was read yet. */
  predicate LinkBegins(k: Setup, sum32: Checksum32, c: Link) {
    c == Link(AwaitInit, Start(k.dir), false, WriteMsgs(sum32, [Control(Head(ZRQINIT, 0))]), [])
  }

  /** A run on bytes, as long as neither side has given up. */
  ghost predicate IsLinkRun(k: Setup, sum32: Checksum32, run: seq<Link>) {
    && run != [] && LinkBegins(k, sum32, run[0]) && k.sum == Summed(sum32)
    && (forall t | 0 <= t < |run| - 1 :: !Broken(run[t]) && LinkMoves(k, sum32, run[t], run[t + 1]))
  }

  lemma BeginsShown(k: Setup, sum32: Checksum32, c: Link) returns (j: Session)
    requires LinkBegins(k, sum32, c)
    ensures Begins(k, j) && Shows(sum32, j, c, [], [])
  {
    hide WriteMsg;
    var query := Control(Head(ZRQINIT, 0));
    j := Session(AwaitInit, Start(k.dir), [query], []);
    var b := WriteMsg(sum32, query);
    assert [query][1..] == [] && WriteMsgs(sum32, []) == [];
    assert WriteMsgs(sum32, [query]) == b + [];
    assert c.down[0..] == c.down;
    assert Spelled(sum32, query, b) && Spells(sum32, [], []);
  }

  /** Every run on bytes is a run of the session, with as much lost as checksums have told. */
  lemma {:induction false} LinkRunIsRun(k: Setup, sum32: Checksum32, run: seq<Link>)
      returns (shown: seq<Session>, padDown: bytes, padUp: bytes)
    requires IsLinkRun(k, sum32, run) && Sound(k) && ShortNames(k)
    ensures |shown| == |run| && IsQuietRun(k, shown) && forall t | 0 <= t < |run| :: Same(shown[t], run[t])
    ensures forall t | 0 <= t < |run| - 1 && GentleLinkMoves(k, sum32, run[t], run[t + 1]) ::
              GentleMove(k, shown[t], shown[t + 1])
    ensures Shows(sum32, shown[|run| - 1], run[|run| - 1], padDown, padUp) && InStep(k, shown[|run| - 1])
    decreases |run|
  {
    hide LinkMoves, GentleLinkMoves, GentleMove, Shows, Sync, Moves, Sound, ShortNames, LinkBegins, Begins;
    var n := |run| - 1;
    if n == 0 {
      var j := BeginsShown(k, sum32, run[0]);
      shown, padDown, padUp := [j], [], [];
      InitHolds(k, j);
      AreSame(sum32, j, run[0], padDown, padUp);
    } else {
      var before, d, u := LinkRunIsRun(k, sum32, run[..n]);
      assert LinkMoves(k, sum32, run[n - 1], run[n - 1 + 1]);
      var j := before[n - 1];
      assert Same(j, run[n - 1]) && !Lost(j);
      var j', d', u' := StepIsMove(k, sum32, j, run[n - 1], run[n], d, u);
      shown, padDown, padUp := before + [j'], d', u';
      MoveIsNext(k, j, j');
      StepKeeps(k, j, j');
      AreSame(sum32, j', run[n], padDown, padUp);
      forall t | 0 <= t < |shown| - 1
        ensures Moves(k, shown[t], shown[t + 1])
      {
        if t < n - 1 {
          assert Moves(k, before[t], before[t + 1]);
        }
      }
      forall t | 0 <= t < |run| - 1 && GentleLinkMoves(k, sum32, run[t], run[t + 1])
        ensures GentleMove(k, shown[t], shown[t + 1])
      {
        if t < n - 1 {
          assert GentleLinkMoves(k, sum32, run[..n][t], run[..n][t + 1]);
        }
      }
    }
  }

  lemma MoveIsNext(k: Setup, j: Session, j': Session)
    requires Moves(k, j, j')
    ensures Next(k, j, j')
  {
    hide SenderMoves, ReceiverMoves;
  }

  predicate Same(j: Session, c: Link) { c.s == j.s && c.r == j.r }

  lemma AreSame(sum32: Checksum32, j: Session, c: Link, padDown: bytes, padUp: bytes)
    requires Shows(sum32, j, c, padDown, padUp)
    ensures Same(j, c)
  {
  }

  /**
   Whatever payload bytes the line changes, as long as the checksums tell: when both sides return
   without an error every file of the session is in the directory, and nothing else has changed.
   */
  lemma DeliveredThroughDamage(k: Setup, sum32: Checksum32, run: seq<Link>)
    requires IsLinkRun(k, sum32, run) && Sound(k) && ShortNames(k)
    requires run[|run| - 1].s.Sent? && run[|run| - 1].r.phase.Finished?
    ensures run[|run| - 1].r.dir == Expected(k, |k.files|) && !run[|run| - 1].r.open
  {
    hide IsLinkRun, IsQuietRun, Shows, Sound, ShortNames, Expected;
    var shown, d, u := LinkRunIsRun(k, sum32, run);
    assert Same(shown[|run| - 1], run[|run| - 1]);
  }

  ghost predicate IsGentleLinkRun(k: Setup, sum32: Checksum32, run: seq<Link>) {
    IsLinkRun(k, sum32, run) && forall t | 0 <= t < |run| - 1 :: GentleLinkMoves(k, sum32, run[t], run[t + 1])
  }

  ghost predicate CanMove(k: Setup, sum32: Checksum32, c: Link) {
    exists c' :: GentleLinkMoves(k, sum32, c, c')
  }

  lemma SenderMayRead(k: Setup, sum32: Checksum32, j: Session, c: Link, padDown: bytes, padUp: bytes)
    requires Shows(sum32, j, c, padDown, padUp) && j.up != [] && WellFormed(k.files, j.s) && Active(j.s)
    ensures CanMove(k, sum32, c)
  {
    hide ReadHeader, Sending.Step, WriteHead, WriteMsgs, AllArrive, Spells, Readable;
    var h := j.up[0];
    var tail := WriteHeads(j.up[1..]);
    assert c.up == padUp + WriteHead(h) + tail;
    var pad := HeadReads(sum32, padUp, h, tail);
    var t := Sending.Step(k.files, k.sum, c.s, h);
    WrittenArrives(sum32, t.out);
    var c' := Link(t.state, c.r, c.wide, c.down + WriteMsgs(sum32, t.out), pad + tail);
    assert SenderReads(k, sum32, c, c');
    assert GentleLinkMoves(k, sum32, c, c');
  }

  lemma ReceiverMayRead(k: Setup, sum32: Checksum32, j: Session, c: Link, padDown: bytes, padUp: bytes)
    requires Shows(sum32, j, c, padDown, padUp) && j.down != [] && Fits(j.r.phase, Arrives(j.down[0]))
    ensures CanMove(k, sum32, c)
  {
    hide Receiving.Step, WriteHeads, Spells, Spelled, Take, Starved, SenderReads;
    var m := j.down[0];
    var unread := c.down[|padDown|..];
    var x, y := SpellsFirst(sum32, j.down, unread);
    assert c.down == padDown + x + y;
    assert m in j.down;
    var pad := SpelledArrives(sum32, padDown, j.r.phase, m, x, y);
    var t := Receiving.Step(k.sum, c.r, Arrives(m));
    var c' := Link(c.s, t.state, false, pad + y, c.up + WriteHeads(t.out));
    assert ReceiverReads(k, sum32, c, c');
    assert GentleLinkMoves(k, sum32, c, c');
  }

  /** What the session can do the bytes let it do. */
  lemma LinkNotStuck(k: Setup, sum32: Checksum32, j: Session, c: Link, padDown: bytes, padUp: bytes)
    requires Shows(sum32, j, c, padDown, padUp) && Sync(k, j) && !Lost(j) && !Delivered(j)
    ensures CanMove(k, sum32, c)
  {
    hide *;
    SomebodyWaits(k, j);
    if j.up != [] {
      SenderMayRead(k, sum32, j, c, padDown, padUp);
    } else {
      ReceiverMayRead(k, sum32, j, c, padDown, padUp);
    }
  }

  /**
   If the files are welcome and no chunk is damaged more than twenty times in a row, a session on
   bytes cannot go on for ever, and where it cannot go on every file has been delivered.
   */
  lemma CertainThroughDamage(k: Setup, sum32: Checksum32, run: seq<Link>)
    requires IsGentleLinkRun(k, sum32, run) && Welcome(k) && ShortNames(k)
    ensures WellFormed(k.files, run[0].s) && |run| <= Rank(k, Session(AwaitInit, Start(k.dir), [Control(Head(ZRQINIT, 0))], [])) + 1
    ensures var last := run[|run| - 1];
            CanMove(k, sum32, last)
            || (last.s.Sent? && last.r.phase.Finished? && last.r.dir == Expected(k, |k.files|))
  {
    hide Shows, ShortNames, Welcome, Expected, GentleMove, GentleLinkMoves, LinkMoves, Rank, Moves, Hopeful, Sync, CanMove;
    WelcomeSound(k);
    var n := |run| - 1;
    var shown, d, u := LinkRunIsRun(k, sum32, run);
    assert IsGentleRun(k, shown);
    GentleRunKeeps(k, shown, n);
    assert Same(shown[n], run[n]) && Same(shown[0], run[0]);
    HopefulIs(k, shown[n]);
    if Delivered(shown[n]) {
      DeliveredThroughDamage(k, sum32, run);
    } else {
      LinkNotStuck(k, sum32, shown[n], run[n], d, u);
    }
  }

  lemma HopefulIs(k: Setup, j: Session)
    requires Hopeful(k, j)
    ensures Sync(k, j) && !Lost(j)
  {
    hide Sync;
  }
}
