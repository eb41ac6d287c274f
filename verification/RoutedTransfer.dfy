/** Transfers that the router hands over: what they take from the terminal's channel, and what they leave. */
module RoutedTransfer {
  import opened Bytes
  import opened Wire
  import opened RoundTrip
  import opened Metadata
  import opened Sending
  import opened Receiving
  import opened Session
  import opened SessionProofs
  import opened Driving
  import opened OnTheWire
  import opened TerminalStream

  /** How many bytes a transfer reads: the program sends on a ZRINIT, and receives on a ZRQINIT. */
  function Reads(sum32: Checksum32, files: seq<Source>, dir: Dir): Transfers {
    (h: Header, s: bytes) =>
      var left := if h.kind == ZRINIT then |SendsAll(sum32, files, Some(h), s).rest|
                  else |ReceivesAll(sum32, dir, Some(h), s).rest|;
      if left <= |s| then |s| - left else 0
  }

  const QUERY: Head := Head(ZRQINIT, 0)

  function Ready(dir: Dir): Receiver { Receiver(Phase.Ready, dir, false, [], 0, 0) }

  /** The receiver has answered the query, and the sender has not read the answer. */
  function Answered(k: Setup): Session { Session(AwaitInit, Ready(k.dir), [], [READY]) }

  /** The sender has read the answer too. */
  function Offered(k: Setup): Session { Session(Offer(k.files, 0).state, Ready(k.dir), Offer(k.files, 0).out, []) }

  lemma AnsweredHopes(k: Setup)
    ensures Hopeful(k, Answered(k)) && Fitting(Answered(k).down)
  {
  }

  lemma OfferedFollows(k: Setup)
    requires ShortNames(k)
    ensures GentleMove(k, Answered(k), Offered(k)) && Fitting(Offered(k).down)
  {
    hide Offer, ShortNames;
    var j := Answered(k);
    SenderFits(k, j.s, READY);
    var t := Sending.Step(k.files, k.sum, j.s, READY);
    assert t == Offer(k.files, 0);
    assert Offered(k).down[|j.down|..] == t.out;
    assert Damaged !in Offered(k).down;
    assert SenderMoves(k, j, Offered(k));
  }

  lemma Answers(sum32: Checksum32, dir: Dir, s: bytes)
    ensures HeadOf(HeaderOf(QUERY)) == QUERY && !HeaderOf(QUERY).wide
    ensures ReceivesAll(sum32, dir, Some(HeaderOf(QUERY)), s)
            == Emit(WriteHeads([READY]), Receives(sum32, Ready(dir), false, s))
  {
    hide Receives, WriteHeads;
    PositionOf(QUERY.pos);
  }

  lemma Offers(sum32: Checksum32, files: seq<Source>, s: bytes)
    ensures HeadOf(HeaderOf(READY)) == READY
    ensures SendsAll(sum32, files, Some(HeaderOf(READY)), s)
            == Emit(WriteMsgs(sum32, Offer(files, 0).out), Sends(sum32, files, Offer(files, 0).state, s))
  {
    hide Sends, WriteMsgs, Offer;
    PositionOf(READY.pos);
  }

  // ----------------------------------------------------------------- download

  /**
   `sent` is all that a sender at the other end writes on reading `answers`, which is all that
   this side writes; this side reads behind the header that opened the transfer, and `later`
   is what follows on the channel.
   */
  ghost predicate Download(k: Setup, sum32: Checksum32, sent: bytes, answers: bytes, later: bytes) {
    k.sum == Summed(sum32)
    && var session := Sends(sum32, k.files, AwaitInit, answers).out;
       && sent == EncodeHeader(HeaderOf(QUERY)) + session
       && answers == ReceivesAll(sum32, k.dir, Some(HeaderOf(QUERY)), [XON] + session + later).out
  }

  /** The sender's own way of beginning is to write the query. */
  lemma DownloadIsSending(k: Setup, sum32: Checksum32, sent: bytes, answers: bytes, later: bytes)
    requires Download(k, sum32, sent, answers, later)
    ensures sent == SendsAll(sum32, k.files, None, answers).out
  {
    hide Sends, ReceivesAll, EncodeHeader;
  }

  lemma DownloadJoins(k: Setup, sum32: Checksum32, sent: bytes, answers: bytes, later: bytes) returns (w: Streams)
    requires Download(k, sum32, sent, answers, later)
    ensures Joined(k, sum32, Answered(k), w, Tails(later, [])) && w.up == answers
    ensures w.down == [XON] + Sends(sum32, k.files, AwaitInit, answers).out + later
  {
    hide Sends, Receives, ReceivesAll, WriteHeads, EncodeHeader;
    var session := Sends(sum32, k.files, AwaitInit, answers).out;
    var rest := [XON] + session + later;
    Answers(sum32, k.dir, rest);
    w := Streams([XON], rest, [], answers);
    NoMessages(sum32);
    assert [XON] + ([] + session) + later == rest;
    assert [] + answers + [] == answers;
  }

  lemma NoMessages(sum32: Checksum32)
    ensures WriteMsgs(sum32, []) == [] && WriteHeads([]) == []
  {
  }

  /**
   A download behind its header: the other end writes what a sender of its own accord writes;
   if both sides succeed every file has arrived and this side has read exactly the session; and
   if the files are welcome both do.
   */
  lemma DownloadDelivers(k: Setup, sum32: Checksum32, sent: bytes, answers: bytes, later: bytes)
    requires Sound(k) && ShortNames(k) && Download(k, sum32, sent, answers, later)
    ensures var session := Sends(sum32, k.files, AwaitInit, answers);
            var mine := ReceivesAll(sum32, k.dir, Some(HeaderOf(QUERY)), [XON] + session.out + later);
            && sent == SendsAll(sum32, k.files, None, answers).out
            && (session.state.Sent? && mine.state.phase.Finished? ==>
                  mine.state.dir == Expected(k, |k.files|) && mine.rest == later && session.rest == [])
            && (Welcome(k) ==> session.state.Sent? && mine.state.phase.Finished?)
  {
    hide Sends, Receives, ReceivesAll, WriteHeads, EncodeHeader, Sound, ShortNames, Welcome, Expected, Hopeful, Sync, Download,
      Joined;
    DownloadIsSending(k, sum32, sent, answers, later);
    var w := DownloadJoins(k, sum32, sent, answers, later);
    Answers(sum32, k.dir, w.down);
    AnsweredHopes(k);
    HopefulForm(k, Answered(k));
    ToTheEnd(k, sum32, Answered(k), w, Tails(later, []));
  }

  lemma DownloadExists(k: Setup, sum32: Checksum32, later: bytes) returns (sent: bytes, answers: bytes)
    requires Welcome(k) && ShortNames(k) && k.sum == Summed(sum32)
    ensures Download(k, sum32, sent, answers, later)
  {
    hide Sends, Receives, ReceivesAll, WriteHeads, EncodeHeader, ShortNames, Welcome, Hopeful;
    AnsweredHopes(k);
    var w := StreamsFrom(k, sum32, Answered(k), [XON], [], Tails(later, []));
    answers := w.up;
    var session := Sends(sum32, k.files, AwaitInit, answers).out;
    sent := EncodeHeader(HeaderOf(QUERY)) + session;
    NoMessages(sum32);
    assert [] + session == session;
    Answers(sum32, k.dir, [XON] + session + later);
    assert w.down == [XON] + session + later;
    assert [] + (WriteHeads([READY]) + Receives(sum32, Ready(k.dir), false, w.down).out) + []
           == WriteHeads([READY]) + Receives(sum32, Ready(k.dir), false, w.down).out;
  }

  /** The terminal shows the text before a download and what comes after it, and nothing of it. */
  lemma DownloadHidden(k: Setup, sum32: Checksum32, uploads: seq<Source>, text: bytes, sent: bytes, answers: bytes, later: bytes)
    requires Welcome(k) && ShortNames(k) && Download(k, sum32, sent, answers, later) && OnlyText(text)
    ensures var eats := Reads(sum32, uploads, k.dir);
            Shown(eats, text + (sent + later)) == text + Shown(eats, later)
  {
    hide Sends, SendsAll, ReceivesAll, EncodeHeader, Sound, ShortNames, Welcome, Expected, Shown, OnlyText;
    WelcomeSound(k);
    DownloadDelivers(k, sum32, sent, answers, later);
    var session := Sends(sum32, k.files, AwaitInit, answers).out;
    var h := HeaderOf(QUERY);
    var rest := [XON] + session + later;
    assert ReceivesAll(sum32, k.dir, Some(h), rest).rest == later;
    assert Narrow(h) == h && h.kind == ZRQINIT;
    assert Reads(sum32, uploads, k.dir)(h, rest) == |rest| - |later|;
    TransferHidden(Reads(sum32, uploads, k.dir), text, h, session, later);
    assert text + (sent + later) == Interleaved(text, h, session, later);
  }

  // ------------------------------------------------------------------- upload

  /** The same for files that go the other way: the receiver at the other end has been queried. */
  ghost predicate Upload(k: Setup, sum32: Checksum32, sent: bytes, answers: bytes, later: bytes) {
    k.sum == Summed(sum32)
    && var session := Receives(sum32, Ready(k.dir), false, sent).out;
       && answers == EncodeHeader(HeaderOf(READY)) + session
       && sent == SendsAll(sum32, k.files, Some(HeaderOf(READY)), [XON] + session + later).out
  }

  lemma UploadIsReceiving(k: Setup, sum32: Checksum32, sent: bytes, answers: bytes, later: bytes)
    requires Upload(k, sum32, sent, answers, later)
    ensures answers == ReceivesAll(sum32, k.dir, Some(HeaderOf(QUERY)), sent).out
  {
    hide Receives, SendsAll, EncodeHeader, WriteHeads;
    Answers(sum32, k.dir, sent);
    WriteOne(READY);
  }

  lemma UploadJoins(k: Setup, sum32: Checksum32, sent: bytes, answers: bytes, later: bytes) returns (w: Streams)
    requires Upload(k, sum32, sent, answers, later)
    ensures Joined(k, sum32, Offered(k), w, Tails([], later)) && w.down == sent
    ensures w.up == [XON] + Receives(sum32, Ready(k.dir), false, sent).out + later
  {
    hide Sends, Receives, SendsAll, WriteMsgs, EncodeHeader;
    var session := Receives(sum32, Ready(k.dir), false, sent).out;
    var rest := [XON] + session + later;
    Offers(sum32, k.files, rest);
    w := Streams([], sent, [XON], rest);
    NoMessages(sum32);
    assert [XON] + ([] + session) + later == rest;
    assert [] + sent + [] == sent;
  }

  /** An upload: the other end writes what a receiver writes that was asked; the rest as before. */
  lemma UploadDelivers(k: Setup, sum32: Checksum32, sent: bytes, answers: bytes, later: bytes)
    requires Sound(k) && ShortNames(k) && Upload(k, sum32, sent, answers, later)
    ensures var session := Receives(sum32, Ready(k.dir), false, sent);
            var mine := SendsAll(sum32, k.files, Some(HeaderOf(READY)), [XON] + session.out + later);
            && answers == ReceivesAll(sum32, k.dir, Some(HeaderOf(QUERY)), sent).out
            && (mine.state.Sent? && session.state.phase.Finished? ==>
                  session.state.dir == Expected(k, |k.files|) && mine.rest == later && session.rest == [])
            && (Welcome(k) ==> mine.state.Sent? && session.state.phase.Finished?)
  {
    hide Sends, Receives, SendsAll, ReceivesAll, WriteMsgs, EncodeHeader, Sound, ShortNames, Welcome, Expected, Hopeful, Sync, Upload, Joined,
      GentleMove, Offer;
    UploadIsReceiving(k, sum32, sent, answers, later);
    var w := UploadJoins(k, sum32, sent, answers, later);
    Offers(sum32, k.files, w.up);
    AnsweredHopes(k);
    OfferedFollows(k);
    HopefulForm(k, Answered(k));
    OfferedInStep(k);
    if Welcome(k) {
      HopeKept(k, Answered(k), Offered(k));
      HopefulAlive(k, Offered(k));
    }
    if Lost(Offered(k)) {
      LostSends(k, sum32, w.up);
    } else {
      ToTheEnd(k, sum32, Offered(k), w, Tails([], later));
    }
  }

  lemma OfferedInStep(k: Setup)
    requires Sound(k) && GentleMove(k, Answered(k), Offered(k))
    ensures InStep(k, Offered(k))
  {
    hide Offer, Sound, Sync, Hopeful;
    AnsweredHopes(k);
    HopefulForm(k, Answered(k));
    StepKeeps(k, Answered(k), Offered(k));
  }

  lemma LostSends(k: Setup, sum32: Checksum32, s: bytes)
    requires Lost(Offered(k))
    ensures Sends(sum32, k.files, Offer(k.files, 0).state, s).state.Failed?
  {
    hide Offer;
  }

  lemma UploadExists(k: Setup, sum32: Checksum32, later: bytes) returns (sent: bytes, answers: bytes)
    requires Welcome(k) && ShortNames(k) && k.sum == Summed(sum32)
    ensures Upload(k, sum32, sent, answers, later)
  {
    hide Sends, Receives, SendsAll, WriteMsgs, EncodeHeader, ShortNames, Welcome, Hopeful, GentleMove, Offer;
    AnsweredHopes(k);
    OfferedFollows(k);
    HopeKept(k, Answered(k), Offered(k));
    OfferIsNotTheEnd(k);
    var w := StreamsFrom(k, sum32, Offered(k), [], [XON], Tails([], later));
    sent := w.down;
    var session := Receives(sum32, Ready(k.dir), false, sent).out;
    answers := EncodeHeader(HeaderOf(READY)) + session;
    NoMessages(sum32);
    assert [] + session == session;
    assert w.up == [XON] + session + later;
    Offers(sum32, k.files, w.up);
    var mine := WriteMsgs(sum32, Offer(k.files, 0).out) + Sends(sum32, k.files, Offer(k.files, 0).state, w.up).out;
    assert [] + mine + [] == mine;
  }

  lemma OfferIsNotTheEnd(k: Setup)
    ensures !Offer(k.files, 0).state.Sent?
  {
  }

  /** The terminal shows the text before an upload and what comes after it, and nothing of it. */
  lemma UploadHidden(k: Setup, sum32: Checksum32, dir: Dir, text: bytes, sent: bytes, answers: bytes, later: bytes)
    requires Welcome(k) && ShortNames(k) && Upload(k, sum32, sent, answers, later) && OnlyText(text)
    ensures var eats := Reads(sum32, k.files, dir);
            Shown(eats, text + (answers + later)) == text + Shown(eats, later)
  {
    hide Receives, SendsAll, ReceivesAll, EncodeHeader, Sound, ShortNames, Welcome, Expected, Shown, OnlyText;
    WelcomeSound(k);
    UploadDelivers(k, sum32, sent, answers, later);
    var session := Receives(sum32, Ready(k.dir), false, sent).out;
    var h := HeaderOf(READY);
    var rest := [XON] + session + later;
    assert SendsAll(sum32, k.files, Some(h), rest).rest == later;
    assert Narrow(h) == h && h.kind == ZRINIT;
    assert Reads(sum32, k.files, dir)(h, rest) == |rest| - |later|;
    TransferHidden(Reads(sum32, k.files, dir), text, h, session, later);
    assert text + (answers + later) == Interleaved(text, h, session, later);
  }
}
