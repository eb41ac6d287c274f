/** How each side of a transfer takes what a peer may also do: skip, hesitate, repeat, ask, and break rules. */
module PeerLaws {
  import opened Bytes
  import opened Wire
  import opened Metadata
  import opened Sending
  import opened Receiving
  import opened Session
  import opened Streaming

  // -------------------------------------------------------------------- sender

  /** The sender after some headers; what it has written, turn by turn. */
  function Heard(files: seq<Source>, sum: Sum32, s: State, heads: seq<Head>): (t: Turn)
    requires WellFormed(files, s)
    ensures WellFormed(files, t.state)
    decreases |heads|
  {
    if heads == [] || !Active(s) then Turn(s, []) else
    var t := Sending.Step(files, sum, s, heads[0]);
    var u := Heard(files, sum, t.state, heads[1..]);
    Turn(u.state, t.out + u.out)
  }

  /** The file the sender has come to. */
  function FileAt(files: seq<Source>, s: State): nat {
    match s
    case AwaitInit => 0
    case AwaitStart(i, _) => i
    case AwaitAck(i, _, _, _) => i
    case AwaitNext(i) => i
    case _ => |files|
  }

  /** A chunk of a file, from an offset: at most 8 KiB, and as much as there is. */
  predicate IsChunkOf(content: bytes, pos: nat, m: Msg) {
    m.Packet? && m.end == ZCRCW && pos < |content|
    && |m.data| == (if |content| - pos < 8192 then |content| - pos else 8192) && m.data == content[pos..pos + |m.data|]
  }

  lemma ChunkIsOfTheFile(files: seq<Source>, i: nat, pos: U32, retries: nat, at: U32)
    requires i < |files| && Sendable(files[i]) && pos <= |files[i].content| && retries <= MAX_RETRIES
    requires Control(Head(ZDATA, at)) in SendChunk(files, i, pos, retries).out
    ensures var t := SendChunk(files, i, pos, retries);
            at == pos && FileAt(files, t.state) == i && IsChunkOf(files[i].content, pos, t.out[|t.out| - 1])
  {
  }

  /** File data is of the file the sender has come to, from the offset in front of it. */
  lemma DataIsOfTheFile(files: seq<Source>, sum: Sum32, s: State, h: Head, at: U32)
    requires WellFormed(files, s) && Active(s) && Control(Head(ZDATA, at)) in Sending.Step(files, sum, s, h).out
    ensures var t := Sending.Step(files, sum, s, h);
            var i := FileAt(files, s);
            && FileAt(files, t.state) == i < |files| && IsChunkOf(files[i].content, at, t.out[|t.out| - 1])
  {
    hide Format, SendChunk, IsChunkOf;
    var i := FileAt(files, s);
    match s
    case AwaitStart(_, tries) =>
      var pos: U32 := if h.kind == ZRPOS then h.pos else 0;
      ChunkIsOfTheFile(files, i, pos, 0, at);
    case AwaitAck(_, pos, n, retries) =>
      if h.kind == ZACK {
        ChunkIsOfTheFile(files, i, pos + n, 0, at);
      } else {
        ChunkIsOfTheFile(files, i, h.pos, retries + 1, at);
      }
    case _ =>
  }

  lemma NeverBack(files: seq<Source>, sum: Sum32, s: State, h: Head)
    requires WellFormed(files, s) && Active(s)
    ensures FileAt(files, s) <= FileAt(files, Sending.Step(files, sum, s, h).state)
  {
    hide Format;
  }

  lemma {:induction false} NeverBackOn(files: seq<Source>, sum: Sum32, s: State, heads: seq<Head>)
    requires WellFormed(files, s)
    ensures FileAt(files, s) <= FileAt(files, Heard(files, sum, s, heads).state)
    decreases |heads|
  {
    hide Sending.Step, FileAt;
    if heads != [] && Active(s) {
      NeverBack(files, sum, s, heads[0]);
      NeverBackOn(files, sum, Sending.Step(files, sum, s, heads[0]).state, heads[1..]);
    }
  }

  function Ascii(s: string): bytes { seq(|s|, i requires 0 <= i < |s| => if s[i] as int < 128 then s[i] as int else 0) }

  /**
   What is said of a file: its name, its size, no time, the mode of a file that is its owner's, one
   file left, and its size again.
   */
  lemma FileIsDescribed(name: bytes, size: nat)
    ensures Format(name, size) == name + [0] + Decimal(size) + Ascii(" 0 100600 0 1 ") + Decimal(size) + [0]
  {
    assert MODES == Ascii(" 0 100600 0 1 ");
  }

  /** The next file is announced, or there is none and the end is, or it cannot be sent. */
  predicate Announces(files: seq<Source>, i: nat, t: Turn) {
    if i >= |files| then t == Turn(AwaitFin(0), [Control(Head(ZFIN, 0))])
    else if !files[i].regular || |files[i].content| > 0xffff_ffff then t == Turn(State.Failed, [])
    else t == Turn(AwaitStart(i, 0), [Control(Head(ZFILE, 0)), Packet(Format(files[i].name, |files[i].content|), ZCRCW)])
  }

  /** A file the peer skips is never sent, whatever it says later: the next one is offered. */
  lemma SkippedIsPassedOver(files: seq<Source>, sum: Sum32, i: nat, tries: nat, pos: U32, heads: seq<Head>)
    requires WellFormed(files, AwaitStart(i, tries))
    ensures var t := Sending.Step(files, sum, AwaitStart(i, tries), Head(ZSKIP, pos));
            && Announces(files, i + 1, t)
            && FileAt(files, Heard(files, sum, t.state, heads).state) > i
  {
    hide Format;
    var t := Sending.Step(files, sum, AwaitStart(i, tries), Head(ZSKIP, pos));
    NeverBackOn(files, sum, t.state, heads);
  }

  /** A session begins with the first file, and goes on with the next when one is acknowledged. */
  lemma ReadyIsAnnouncedTo(files: seq<Source>, sum: Sum32, s: State, h: Head)
    requires WellFormed(files, s) && (s.AwaitInit? || s.AwaitNext?)
    ensures var t := Sending.Step(files, sum, s, h);
            if h.kind == ZRINIT then Announces(files, if s.AwaitInit? then 0 else s.file + 1, t)
            else t == Turn(State.Failed, [])
  {
    hide Format;
  }

  predicate Unhelpful(heads: seq<Head>) { forall h | h in heads :: h.kind !in {ZSKIP, ZCRC, ZRPOS} }

  /** Nineteen headers that say nothing of where to start are borne; after the twentieth the file is sent whole. */
  lemma {:induction false} HesitationIsBorne(files: seq<Source>, sum: Sum32, i: nat, tries: nat, heads: seq<Head>)
    requires WellFormed(files, AwaitStart(i, tries)) && Unhelpful(heads) && tries + |heads| <= 20
    ensures tries + |heads| < 20 ==> Heard(files, sum, AwaitStart(i, tries), heads) == Turn(AwaitStart(i, tries + |heads|), [])
    ensures tries + |heads| == 20 ==> Heard(files, sum, AwaitStart(i, tries), heads) == SendChunk(files, i, 0, 0)
    decreases |heads|
  {
    hide Format, SendChunk, Offer;
    if heads != [] {
      var h := heads[0];
      assert h in heads && forall x | x in heads[1..] :: x in heads;
      var t := Sending.Step(files, sum, AwaitStart(i, tries), h);
      if tries + 1 < 20 {
        assert t == Turn(AwaitStart(i, tries + 1), []);
        HesitationIsBorne(files, sum, i, tries + 1, heads[1..]);
        var u := Heard(files, sum, AwaitStart(i, tries + 1), heads[1..]);
        assert [] + u.out == u.out;
      } else {
        assert t == SendChunk(files, i, 0, 0);
        assert heads[1..] == [];
        assert t.out + [] == t.out;
      }
    }
  }

  /** A checksum of the beginning, or of all, that is asked for is given; of more than there is, it is not. */
  lemma ChecksumIsGiven(files: seq<Source>, sum: Sum32, i: nat, tries: nat, pos: U32)
    requires WellFormed(files, AwaitStart(i, tries)) && tries < 19
    ensures var t := Sending.Step(files, sum, AwaitStart(i, tries), Head(ZCRC, pos));
            var content := files[i].content;
            if pos > |content| then t == Turn(State.Failed, [])
            else t == Turn(AwaitStart(i, tries + 1), [Control(Head(ZCRC, sum(if pos == 0 then content else content[..pos])))])
  {
    hide Format;
    var content := files[i].content;
    assert content[..|content|] == content;
    var answer := Control(Head(ZCRC, sum(if pos == 0 then content else if pos <= |content| then content[..pos] else [])));
    assert [answer] + [] == [answer];
  }

  /** Nine headers instead of the farewell are borne, the tenth is not. */
  lemma {:induction false} FarewellIsAwaited(files: seq<Source>, sum: Sum32, tries: nat, heads: seq<Head>)
    requires (forall h | h in heads :: h.kind != ZFIN) && tries + |heads| <= 10 && tries < 10
    ensures Heard(files, sum, AwaitFin(tries), heads)
            == Turn(if tries + |heads| < 10 then AwaitFin(tries + |heads|) else State.Failed, [])
    ensures Sending.Step(files, sum, AwaitFin(tries), Head(ZFIN, 0)) == Turn(Sent, [Octet(79), Octet(79)])
    decreases |heads|
  {
    hide Offer, OnStart, OnAck;
    if heads != [] {
      assert heads[0] in heads && forall x | x in heads[1..] :: x in heads;
      if tries + 1 < 10 {
        FarewellIsAwaited(files, sum, tries + 1, heads[1..]);
      }
    }
  }

  /** An answer to a chunk is the offset behind it, or a place to go on from; the session fails on anything else. */
  lemma AnswerIsChecked(files: seq<Source>, sum: Sum32, i: nat, pos: U32, n: nat, retries: nat, h: Head)
    requires WellFormed(files, AwaitAck(i, pos, n, retries))
    ensures var t := Sending.Step(files, sum, AwaitAck(i, pos, n, retries), h);
            && (t.state.Failed? <==>
                  !(h.kind == ZACK && h.pos == pos + n)
                  && !(h.kind == ZRPOS && h.pos <= |files[i].content| && retries < 20))
            && (!t.state.Failed? ==>
                  if h.pos == |files[i].content| then t == Turn(AwaitNext(i), [Control(Head(ZEOF, h.pos))])
                  else t.state.AwaitAck? && t.state.pos == h.pos && t.out[0] == Control(Head(ZDATA, h.pos)))
            && (t.state.AwaitAck? ==> t.state.retries == if h.kind == ZACK then 0 else retries + 1)
  {
    hide Format;
  }

  /** The file is sent from the offset that is asked for, if there is so much of it. */
  lemma StartIsChecked(files: seq<Source>, sum: Sum32, i: nat, tries: nat, pos: U32)
    requires WellFormed(files, AwaitStart(i, tries))
    ensures var t := Sending.Step(files, sum, AwaitStart(i, tries), Head(ZRPOS, pos));
            var content := files[i].content;
            if pos > |content| then t == Turn(State.Failed, [])
            else if pos == |content| then t == Turn(AwaitNext(i), [Control(Head(ZEOF, pos))])
            else t.state.AwaitAck? && t.state.pos == pos && t.state.retries == 0 && |t.out| == 2
                 && t.out[0] == Control(Head(ZDATA, pos)) && IsChunkOf(content, pos, t.out[1])
                 && t.state.n == |t.out[1].data|
  {
    hide Format;
  }

  // ------------------------------------------------------------------ receiver

  /** Which headers a receiver accepts between two reads of data. */
  predicate Expected(r: Receiver, h: Head) {
    || h.kind == ZRQINIT || h.kind == ZSINIT || h.kind == ZFILE
    || (h.kind == ZDATA && r.open && h.pos == r.position)
    || (h.kind == ZEOF && r.open && h.pos == r.position == r.size)
    || (h.kind == ZFIN && !r.open)
  }

  /** Everything else ends the session, and nothing in the directory changes. */
  lemma OnlyExpectedGoesOn(sum: Sum32, r: Receiver, h: Head)
    requires r.phase.Ready?
    ensures var t := Receiving.Step(sum, r, GotHead(h));
            && t.state.dir == r.dir && (t.state.phase.Stopped? <==> !Expected(r, h))
            && (h.kind == ZRQINIT ==> t == Reply(r, [Head(ZRINIT, 0x2300_0000)]))
            && (h.kind == ZSINIT ==> t.state.phase.Attention? && t.out == [])
  {
  }

  /** A session begins with ZRQINIT; while a checksum is awaited, only it or the same file again will do. */
  lemma OnlyAwaitedIsTaken(sum: Sum32, r: Receiver, h: Head)
    ensures r.phase.Opening? ==>
              Receiving.Step(sum, r, GotHead(h))
              == if h.kind == ZRQINIT then Reply(r.(phase := Phase.Ready), [Head(ZRINIT, 0x2300_0000)])
                 else Reply(r.(phase := Stopped), [])
    ensures r.phase.Resuming? ==>
              var t := Receiving.Step(sum, r, GotHead(h));
              && t.state.dir == r.dir
              && (t.state.phase.Stopped? <==> !(h.kind == ZFILE || (h.kind == ZCRC && h.pos == r.phase.digest)))
              && (h.kind == ZCRC && !t.state.phase.Stopped? && r.position <= MAX_SIZE ==>
                    t == Reply(r.(phase := Phase.Ready, open := true), [Head(ZRPOS, r.position)]))
  {
  }

  /** A read that fails ends the session, but for one of file data: that is asked for again. */
  lemma FailedReadsEnd(sum: Sum32, r: Receiver, i: Input)
    requires Fits(r.phase, i) && (i.NoHead? || i.NoData?) && (r.phase.Data? ==> r.position <= MAX_SIZE)
    ensures Receiving.Step(sum, r, i)
            == if r.phase.Data? then Reply(r.(phase := Phase.Ready), [Head(ZRPOS, r.position)])
               else Reply(r.(phase := Stopped), [])
  {
  }

  /** The attention sequence is acknowledged. */
  lemma AttentionIsAcknowledged(sum: Sum32, r: Receiver, data: bytes, end: Marker)
    requires r.phase.Attention?
    ensures Receiving.Step(sum, r, GotData(data, end)) == Reply(r.(phase := Phase.Ready), [Head(ZACK, 1)])
  {
  }

  /** A file is refused for its name, for what is in its way, or for being shorter than what is there. */
  lemma OnlyFittingIsTaken(sum: Sum32, r: Receiver, meta: bytes, end: Marker)
    requires r.phase.Meta?
    ensures var t := Receiving.Step(sum, r, GotData(meta, end));
            && (t.state.phase.Stopped? <==>
                  || Parse(meta).None?
                  || var (name, size) := Parse(meta).value;
                     name in r.dir && (r.dir[name].Special? || |r.dir[name].content| > size))
            && (forall n | n in r.dir :: n in t.state.dir && t.state.dir[n] == r.dir[n])
  {
    hide Parse;
  }

  /** More data than was announced ends the session before any of it is written. */
  lemma ExcessIsRefused(sum: Sum32, r: Receiver, data: bytes, end: Marker)
    requires r.phase.Data?
    ensures var t := Receiving.Step(sum, r, GotData(data, end));
            && (t.state.phase.Stopped? <==> r.position + |data| > r.size)
            && (t.state.phase.Stopped? ==> t.state.dir == r.dir)
  {
    hide WriteAt;
  }

  /** The same file announced again and again while its checksum is awaited. */
  function Repeats(meta: bytes, end: Marker, n: nat): seq<Msg> {
    if n == 0 then [] else [Control(Head(ZFILE, 0)), Packet(meta, end)] + Repeats(meta, end, n - 1)
  }

  lemma OneRepeat(sum: Sum32, r: Receiver, meta: bytes, end: Marker, ms: seq<Msg>) returns (again: Receiver)
    requires r.phase.Resuming?
    ensures again.phase.Stopped? <==> meta != r.phase.meta || r.phase.repeats >= 4
    ensures !again.phase.Stopped? ==> again == r.(phase := Resuming(meta, r.phase.repeats + 1, r.phase.digest))
    ensures Reacts(sum, r, [Control(Head(ZFILE, 0)), Packet(meta, end)] + ms) == Reacts(sum, again, ms)
  {
    var first, second := Control(Head(ZFILE, 0)), Packet(meta, end);
    var all := [first, second] + ms;
    assert all[1..] == [second] + ms && all[1..][1..] == ms;
    var one := Receiving.Step(sum, r, Arrives(first));
    var two := Receiving.Step(sum, one.state, Arrives(second));
    again := two.state;
    var u := Reacts(sum, again, ms);
    assert [] + ([] + u.out) == u.out;
  }

  /** Four repeats are borne, the fifth is not; different metadata is not borne at all. */
  lemma {:induction false} RepeatsAreBorne(sum: Sum32, r: Receiver, end: Marker, n: nat)
    requires r.phase.Resuming? && r.phase.repeats + n <= 5
    ensures var t := Reacts(sum, r, Repeats(r.phase.meta, end, n));
            && t.out == [] && (t.state.phase.Stopped? <==> r.phase.repeats + n == 5 && n > 0)
            && (!t.state.phase.Stopped? ==>
                  t.state == r.(phase := Resuming(r.phase.meta, r.phase.repeats + n, r.phase.digest)))
    decreases n
  {
    hide Receiving.Step;
    if n > 0 {
      var again := OneRepeat(sum, r, r.phase.meta, end, Repeats(r.phase.meta, end, n - 1));
      if again.phase.Stopped? {
        assert Reacts(sum, again, Repeats(r.phase.meta, end, n - 1)) == Reply(again, []);
      } else {
        RepeatsAreBorne(sum, again, end, n - 1);
      }
    }
  }

  /** One letter alone does not end it: another behind it is skipped with it. */
  lemma OneLetterIsNotEnough(sum: Sum32, r: Receiver, count: nat, v: byte)
    requires r.phase == ClosingO(count) && count < 32 && v != 79
    ensures Receiving.Step(sum, r, GotByte(v)) == Reply(r.(phase := if count < 31 then Closing(count + 1) else Stopped), [])
  {
  }

  function Octets(letters: bytes): seq<Msg> { if letters == [] then [] else [Octet(letters[0])] + Octets(letters[1..]) }

  /** Before the two letters that end a session there may be up to thirty-one others. */
  lemma {:induction false} EndIsAwaited(sum: Sum32, r: Receiver, count: nat, letters: bytes)
    requires r.phase == Closing(count) && 79 !in letters && count + |letters| <= 32 && count < 32
    ensures Reacts(sum, r, Octets(letters))
            == Reply(r.(phase := if count + |letters| < 32 then Closing(count + |letters|) else Stopped), [])
    ensures Receiving.Step(sum, r, GotByte(79)) == Reply(r.(phase := ClosingO(count)), [])
    ensures Receiving.Step(sum, r.(phase := ClosingO(count)), GotByte(79)) == Reply(r.(phase := Finished), [])
    ensures Receiving.Step(sum, r, NoByte(true)) == Reply(r.(phase := Finished), [])
    ensures Receiving.Step(sum, r.(phase := ClosingO(count)), NoByte(true)) == Reply(r.(phase := Stopped), [])
    decreases |letters|
  {
    if letters != [] {
      var rest := letters[1..];
      assert letters[0] in letters && forall v | v in rest :: v in letters;
      var t := Receiving.Step(sum, r, GotByte(letters[0]));
      assert Octets(letters)[0] == Octet(letters[0]) && Octets(letters)[1..] == Octets(rest);
      if count + 1 < 32 {
        EndIsAwaited(sum, t.state, count + 1, rest);
        assert [] + Reacts(sum, t.state, Octets(rest)).out == [];
      } else {
        assert rest == [];
      }
    }
  }
}
