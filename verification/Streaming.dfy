/**
 A peer of another make: it streams subpackets without waiting, ends them as the standard allows,
 and writes its headers in any of the three formats.
 */
module Streaming {
  import opened Bytes
  import opened Crc16
  import opened Wire
  import opened RoundTrip
  import opened Metadata
  import opened Sending
  import opened Receiving
  import opened Session
  import opened Driving

  /** A subpacket: 104 ends a frame, 105 goes on, 106 goes on and asks for an answer, 107 ends and asks. */
  datatype Part = Part(data: bytes, end: Marker)

  predicate GoesOn(p: Part) { p.end == 105 || p.end == 106 }

  predicate Asks(p: Part) { p.end == 106 || p.end == 107 }

  /** The subpackets behind one ZDATA. */
  predicate IsFrame(parts: seq<Part>) {
    && parts != [] && !GoesOn(parts[|parts| - 1])
    && (forall i | 0 <= i < |parts| - 1 :: GoesOn(parts[i]))
    && (forall i | 0 <= i < |parts| :: |parts[i].data| <= MAX_SUBPACKET)
  }

  function Content(parts: seq<Part>): bytes { if parts == [] then [] else parts[0].data + Content(parts[1..]) }

  /** An answer for every subpacket that asks, with the offset behind it. */
  function Answers(parts: seq<Part>, at: nat): seq<Head> {
    if parts == [] then [] else
    var next := at + |parts[0].data|;
    (if Asks(parts[0]) then [Head(ZACK, Cut(next))] else []) + Answers(parts[1..], next)
  }

  function Packets(parts: seq<Part>): seq<Msg> {
    if parts == [] then [] else [Packet(parts[0].data, parts[0].end)] + Packets(parts[1..])
  }

  function AllContent(frames: seq<seq<Part>>): bytes {
    if frames == [] then [] else Content(frames[0]) + AllContent(frames[1..])
  }

  function AllAnswers(frames: seq<seq<Part>>, at: nat): seq<Head> {
    if frames == [] then [] else Answers(frames[0], at) + AllAnswers(frames[1..], at + |Content(frames[0])|)
  }

  /** Any number of frames, each with its offset in front. */
  function Frames(frames: seq<seq<Part>>, at: nat): seq<Msg> {
    if frames == [] then [] else
    [Control(Head(ZDATA, Cut(at)))] + Packets(frames[0]) + Frames(frames[1..], at + |Content(frames[0])|)
  }

  // ----------------------------------------------------------------- receiver

  /** The receiver's reaction to messages one after the other, as far as it reads them. */
  function Reacts(sum: Sum32, r: Receiver, ms: seq<Msg>): Reply
    decreases |ms|
  {
    if ms == [] || !Fits(r.phase, Arrives(ms[0])) then Reply(r, []) else
    var t := Receiving.Step(sum, r, Arrives(ms[0]));
    var u := Reacts(sum, t.state, ms[1..]);
    Reply(u.state, t.out + u.out)
  }

  /** It reads all of them, each in the way it was written. */
  predicate Takes(sum: Sum32, r: Receiver, ms: seq<Msg>)
    decreases |ms|
  {
    ms != [] ==> Fits(r.phase, Arrives(ms[0])) && Takes(sum, Receiving.Step(sum, r, Arrives(ms[0])).state, ms[1..])
  }

  lemma {:induction false} ReactsConcat(sum: Sum32, r: Receiver, a: seq<Msg>, b: seq<Msg>)
    requires Takes(sum, r, a)
    ensures var t := Reacts(sum, r, a);
            var u := Reacts(sum, t.state, b);
            Reacts(sum, r, a + b) == Reply(u.state, t.out + u.out) && (Takes(sum, t.state, b) ==> Takes(sum, r, a + b))
    decreases |a|
  {
    hide Receiving.Step, Fits;
    if a == [] {
      assert a + b == b;
      assert [] + Reacts(sum, r, b).out == Reacts(sum, r, b).out;
    } else {
      var t := Receiving.Step(sum, r, Arrives(a[0]));
      assert (a + b)[0] == a[0] && (a + b)[1..] == a[1..] + b;
      ReactsConcat(sum, t.state, a[1..], b);
      var u := Reacts(sum, t.state, a[1..]);
      assert t.out + (u.out + Reacts(sum, u.state, b).out) == t.out + u.out + Reacts(sum, u.state, b).out;
    }
  }

  /** The open file holds the first `at` bytes of what it is to hold. */
  predicate Holds(r: Receiver, content: bytes, at: nat) {
    && r.open && r.size == |content| <= MAX_SIZE && r.position == at <= |content|
    && r.name in r.dir && r.dir[r.name] == Regular(content[..at])
  }

  function Filled(r: Receiver, content: bytes, at: nat): Receiver
    requires at <= |content|
  {
    r.(dir := r.dir[r.name := Regular(content[..at])], position := at)
  }

  /** `r'` is the receiver when it has come to `next`, in whatever phase. */
  lemma Further(r: Receiver, content: bytes, at: nat, next: nat, end: nat, r': Receiver)
    requires Holds(r, content, at) && next <= end <= |content| && r' == Filled(r, content, next).(phase := r'.phase)
    ensures Holds(r', content, next)
    ensures Filled(r', content, end) == Filled(r, content, end).(phase := r'.phase)
  {
  }

  /** Two pieces that follow each other. */
  lemma Pieces(content: bytes, at: nat, a: bytes, b: bytes)
    requires at + |a + b| <= |content| && content[at..at + |a + b|] == a + b
    ensures content[at..at + |a|] == a && content[at + |a|..at + |a| + |b|] == b
  {
    assert content[at..at + |a|] == content[at..at + |a + b|][..|a|];
    assert content[at + |a|..at + |a| + |b|] == content[at..at + |a + b|][|a|..];
  }

  /** One subpacket that fits is written behind what is there, and answered if it asks. */
  lemma PartArrives(sum: Sum32, r: Receiver, p: Part, content: bytes, at: nat)
    requires Holds(r, content, at) && r.phase.Data?
    requires at + |p.data| <= |content| && content[at..at + |p.data|] == p.data
    ensures var next := at + |p.data|;
            Receiving.Step(sum, r, GotData(p.data, p.end))
            == Reply(Filled(r, content, next).(phase := if GoesOn(p) then Data else Phase.Ready),
                     if Asks(p) then [Head(ZACK, Cut(next))] else [])
  {
    var next := at + |p.data|;
    Append(content[..at], p.data);
    assert content[..at] + p.data == content[..next];
  }

  lemma {:induction false} PartsArrive(sum: Sum32, r: Receiver, parts: seq<Part>, content: bytes, at: nat)
    requires Holds(r, content, at) && r.phase.Data? && IsFrame(parts)
    requires at + |Content(parts)| <= |content| && content[at..at + |Content(parts)|] == Content(parts)
    ensures Takes(sum, r, Packets(parts))
    ensures Reacts(sum, r, Packets(parts))
            == Reply(Filled(r, content, at + |Content(parts)|).(phase := Phase.Ready), Answers(parts, at))
    decreases |parts|
  {
    hide Receiving.Step, Takes, Reacts, IsFrame, Holds, Filled;
    HoldsMeans(r, content, at);
    PartIsThere(parts);
    var p, rest := parts[0], parts[1..];
    var next := at + |p.data|;
    Pieces(content, at, p.data, Content(rest));
    PartArrives(sum, r, p, content, at);
    var t := Receiving.Step(sum, r, GotData(p.data, p.end));
    Further(r, content, at, next, at + |Content(parts)|, t.state);
    if rest == [] {
      NothingMore(sum, t.state);
    } else {
      RestIsFrame(parts);
      PartsArrive(sum, t.state, rest, content, next);
    }
    MessageThen(sum, r, Packet(p.data, p.end), Packets(rest));
  }

  lemma HoldsMeans(r: Receiver, content: bytes, at: nat)
    requires Holds(r, content, at)
    ensures at <= |content|
  {
  }

  lemma PartIsThere(parts: seq<Part>)
    requires IsFrame(parts)
    ensures parts != [] && (|parts| == 1 ==> !GoesOn(parts[0]))
  {
  }

  lemma NothingMore(sum: Sum32, r: Receiver)
    ensures Takes(sum, r, []) && Reacts(sum, r, []) == Reply(r, [])
  {
  }

  /** A message, and more behind it. */
  lemma MessageThen(sum: Sum32, r: Receiver, m: Msg, ms: seq<Msg>)
    requires Fits(r.phase, Arrives(m)) && Takes(sum, Receiving.Step(sum, r, Arrives(m)).state, ms)
    ensures var t := Receiving.Step(sum, r, Arrives(m));
            && Takes(sum, r, [m] + ms)
            && Reacts(sum, r, [m] + ms) == Reply(Reacts(sum, t.state, ms).state, t.out + Reacts(sum, t.state, ms).out)
  {
    hide Receiving.Step, Fits;
    assert ([m] + ms)[1..] == ms;
  }

  lemma RestIsFrame(parts: seq<Part>)
    requires IsFrame(parts) && |parts| > 1
    ensures IsFrame(parts[1..]) && GoesOn(parts[0])
  {
    var rest := parts[1..];
    assert rest[|rest| - 1] == parts[|parts| - 1];
    assert forall i | 0 <= i < |rest| :: rest[i] == parts[i + 1];
  }

  /** Frames as a peer may write them. */
  predicate AreFrames(frames: seq<seq<Part>>) { forall i | 0 <= i < |frames| :: IsFrame(frames[i]) }

  lemma FrameArrives(sum: Sum32, r: Receiver, parts: seq<Part>, content: bytes, at: nat)
    requires Holds(r, content, at) && r.phase.Ready? && IsFrame(parts)
    requires at + |Content(parts)| <= |content| && content[at..at + |Content(parts)|] == Content(parts)
    ensures var ms := [Control(Head(ZDATA, Cut(at)))] + Packets(parts);
            && Takes(sum, r, ms)
            && Reacts(sum, r, ms) == Reply(Filled(r, content, at + |Content(parts)|), Answers(parts, at))
  {
    hide Receiving.Step, IsFrame;
    DataBegins(sum, r, content, at);
    var data := r.(phase := Data);
    PartsArrive(sum, data, parts, content, at);
    MessageThen(sum, r, Control(Head(ZDATA, Cut(at))), Packets(parts));
    assert [] + Answers(parts, at) == Answers(parts, at);
  }

  lemma {:induction false} FramesArrive(sum: Sum32, r: Receiver, frames: seq<seq<Part>>, content: bytes, at: nat)
    requires Holds(r, content, at) && r.phase.Ready? && AreFrames(frames)
    requires at + |AllContent(frames)| <= |content| && content[at..at + |AllContent(frames)|] == AllContent(frames)
    ensures Takes(sum, r, Frames(frames, at))
    ensures Reacts(sum, r, Frames(frames, at))
            == Reply(Filled(r, content, at + |AllContent(frames)|), AllAnswers(frames, at))
    decreases |frames|
  {
    hide Receiving.Step, IsFrame, Takes, Reacts, Holds, Filled, Content, Packets, Answers, Cut, AllContent, AllAnswers, Frames,
      AreFrames;
    HoldsMeans(r, content, at);
    if frames == [] {
      NoFrames(at);
      NothingArrives(sum, r, content, at);
    } else {
      var first, rest := frames[0], frames[1..];
      var next := at + |Content(first)|;
      ContentIs(frames);
      FramesAre(frames, at);
      AnswersAre(frames, at);
      MoreFrames(frames);
      Pieces(content, at, Content(first), AllContent(rest));
      FrameArrives(sum, r, first, content, at);
      var r' := Filled(r, content, next);
      FilledPhase(r, content, next);
      FilledPhase(r, content, at + |AllContent(frames)|);
      Further(r, content, at, next, at + |AllContent(frames)|, r');
      FramesArrive(sum, r', rest, content, next);
      ReactsConcat(sum, r, [Control(Head(ZDATA, Cut(at)))] + Packets(first), Frames(rest, next));
    }
  }

  lemma NoFrames(at: nat)
    ensures AllContent([]) == [] && Frames([], at) == [] && AllAnswers([], at) == []
  {
  }

  lemma ContentIs(frames: seq<seq<Part>>)
    requires frames != []
    ensures AllContent(frames) == Content(frames[0]) + AllContent(frames[1..])
  {
    hide Content;
  }

  lemma FramesAre(frames: seq<seq<Part>>, at: nat)
    requires frames != []
    ensures Frames(frames, at)
            == [Control(Head(ZDATA, Cut(at)))] + Packets(frames[0]) + Frames(frames[1..], at + |Content(frames[0])|)
  {
    hide Content, Packets, Cut;
  }

  lemma AnswersAre(frames: seq<seq<Part>>, at: nat)
    requires frames != []
    ensures AllAnswers(frames, at) == Answers(frames[0], at) + AllAnswers(frames[1..], at + |Content(frames[0])|)
  {
    hide Content, Answers;
  }

  lemma MoreFrames(frames: seq<seq<Part>>)
    requires AreFrames(frames) && frames != []
    ensures IsFrame(frames[0]) && AreFrames(frames[1..])
  {
    hide IsFrame;
    forall i | 0 <= i < |frames[1..]|
      ensures IsFrame(frames[1..][i])
    {
      assert frames[1..][i] == frames[i + 1];
    }
  }

  lemma FilledPhase(r: Receiver, content: bytes, at: nat)
    requires at <= |content|
    ensures Filled(r, content, at).phase == r.phase
  {
  }

  lemma NothingArrives(sum: Sum32, r: Receiver, content: bytes, at: nat)
    requires Holds(r, content, at)
    ensures Takes(sum, r, []) && Reacts(sum, r, []) == Reply(Filled(r, content, at), [])
  {
    assert r.dir[r.name := Regular(content[..at])] == r.dir;
  }

  lemma DataBegins(sum: Sum32, r: Receiver, content: bytes, at: nat)
    requires Holds(r, content, at) && r.phase.Ready?
    ensures Receiving.Step(sum, r, GotHead(Head(ZDATA, Cut(at)))) == Reply(r.(phase := Data), [])
  {
  }

  lemma EndOfFile(sum: Sum32, r: Receiver, content: bytes)
    requires Holds(r, content, |content|) && r.phase.Ready?
    ensures Receiving.Step(sum, r, GotHead(Head(ZEOF, Cut(|content|)))) == Reply(r.(open := false), [READY])
  {
  }

  /**
   For every content, every offset that is kept, and every cut of the rest into frames and
   subpackets: the file is complete and closed, each subpacket that asks is answered with the offset
   behind it, and the end of the file with one READY.
   */
  lemma StreamArrives(sum: Sum32, r: Receiver, frames: seq<seq<Part>>, content: bytes, kept: nat)
    requires Holds(r, content, kept) && r.phase.Ready? && AreFrames(frames) && AllContent(frames) == content[kept..]
    ensures var ms := Frames(frames, kept) + [Control(Head(ZEOF, Cut(|content|)))];
            && Takes(sum, r, ms)
            && Reacts(sum, r, ms)
               == Reply(r.(open := false, position := |content|, dir := r.dir[r.name := Regular(content)]),
                        AllAnswers(frames, kept) + [READY])
  {
    hide Receiving.Step, Frames, Takes, Reacts, AllContent, AllAnswers;
    assert content[kept..kept + |AllContent(frames)|] == content[kept..];
    FramesArrive(sum, r, frames, content, kept);
    var r' := Filled(r, content, |content|);
    assert content[..|content|] == content;
    EndOfFile(sum, r', content);
    var last := Control(Head(ZEOF, Cut(|content|)));
    OneMessage(sum, r', last);
    ReactsConcat(sum, r, Frames(frames, kept), [last]);
  }

  lemma OneMessage(sum: Sum32, r: Receiver, m: Msg)
    requires Fits(r.phase, Arrives(m))
    ensures Takes(sum, r, [m]) && Reacts(sum, r, [m]) == Receiving.Step(sum, r, Arrives(m))
  {
    hide Receiving.Step, Fits;
    var t := Receiving.Step(sum, r, Arrives(m));
    NothingMore(sum, t.state);
    MessageThen(sum, r, m, []);
    assert [m] + [] == [m] && t.out + [] == t.out;
  }
}
