/** Several transfers on one channel, each finding the directory as the ones before have left it. */
module SeveralTransfers {
  import opened Bytes
  import opened Wire
  import opened RoundTrip
  import opened Sending
  import opened Receiving
  import opened Session
  import opened SessionProofs
  import opened Driving
  import opened OnTheWire
  import opened TerminalStream
  import opened R = RoutedTransfer

  /** Some text and a transfer behind it: files that come in, or files that go out. */
  datatype Visit =
    | Inward(text: bytes, k: Setup, sent: bytes, answers: bytes)
    | Outward(text: bytes, k: Setup, sent: bytes, answers: bytes)
  {
    /** What of the transfer comes in on the channel. */
    function Coming(): bytes { if Inward? then sent else answers }

    function Opening(): Header { HeaderOf(if Inward? then QUERY else READY) }
  }

  function Channel(visits: seq<Visit>, end: bytes): bytes {
    if visits == [] then end else visits[0].text + (visits[0].Coming() + Channel(visits[1..], end))
  }

  /** All that is not part of a transfer. */
  function Texts(visits: seq<Visit>, end: bytes): bytes {
    if visits == [] then end else visits[0].text + Texts(visits[1..], end)
  }

  /** The part of a transfer behind its header. */
  function Body(sum32: Checksum32, v: Visit): bytes {
    if v.Inward? then Sends(sum32, v.k.files, AwaitInit, v.answers).out
    else Receives(sum32, R.Ready(v.k.dir), false, v.sent).out
  }

  /** What is unread when the router has accepted the header of the first transfer. */
  function Unread(sum32: Checksum32, visits: seq<Visit>, end: bytes): bytes
    requires visits != []
  {
    [XON] + Body(sum32, visits[0]) + Channel(visits[1..], end)
  }

  /** The directory as the program leaves it when the first transfer is over. */
  function LeftBehind(sum32: Checksum32, visits: seq<Visit>, end: bytes, dir: Dir): Dir
    requires visits != []
  {
    if visits[0].Inward? then
      ReceivesAll(sum32, dir, Some(HeaderOf(QUERY)), Unread(sum32, visits, end)).state.dir
    else dir
  }

  datatype Place = Place(dir: Dir, files: seq<Source>)

  /** The directory, and the files the user picks, when so many bytes of the channel are unread. */
  function PlaceAt(sum32: Checksum32, visits: seq<Visit>, end: bytes, dir: Dir, unread: nat): Place {
    if visits == [] then Place(dir, [])
    else if unread > |Channel(visits[1..], end)| then Place(dir, visits[0].k.files)
    else PlaceAt(sum32, visits[1..], end, LeftBehind(sum32, visits, end, dir), unread)
  }

  /** What the transfers of the channel read, one after the other. */
  function ReadsInTurn(sum32: Checksum32, visits: seq<Visit>, end: bytes, dir: Dir): Transfers {
    (h: Header, s: bytes) =>
      var p := PlaceAt(sum32, visits, end, dir, |s|);
      R.Reads(sum32, p.files, p.dir)(h, s)
  }

  /** The directory when a transfer into `dir` has delivered everything. */
  function Delivers(v: Visit, dir: Dir): Dir { if v.Inward? then Expected(v.k, |v.k.files|) else dir }

  function DeliversAll(visits: seq<Visit>, dir: Dir): Dir {
    if visits == [] then dir else DeliversAll(visits[1..], Delivers(visits[0], dir))
  }

  /**
   Each transfer is answered as the program answers it, with the rest of the channel behind it,
   and its files are welcome where they go; files that come in go to where the earlier ones went.
   */
  ghost predicate Proceeds(sum32: Checksum32, visits: seq<Visit>, end: bytes, dir: Dir) {
    visits != [] ==>
      var v := visits[0];
      var later := Channel(visits[1..], end);
      && OnlyText(v.text) && Welcome(v.k) && ShortNames(v.k)
      && (v.Inward? ==> v.k.dir == dir && Download(v.k, sum32, v.sent, v.answers, later))
      && (v.Outward? ==> Upload(v.k, sum32, v.sent, v.answers, later))
      && Proceeds(sum32, visits[1..], end, Delivers(v, dir))
  }

  /** The first transfer reads its session, and leaves the directory with all its files. */
  lemma FirstReads(sum32: Checksum32, visits: seq<Visit>, end: bytes, dir: Dir)
    requires visits != [] && Proceeds(sum32, visits, end, dir)
    ensures var v := visits[0];
            && v.Coming() == EncodeHeader(v.Opening()) + Body(sum32, v) && OpensTransfer(v.Opening())
            && R.Reads(sum32, v.k.files, dir)(Narrow(v.Opening()), Unread(sum32, visits, end))
               == 1 + |Body(sum32, v)|
            && LeftBehind(sum32, visits, end, dir) == Delivers(v, dir)
  {
    hide Sends, Receives, SendsAll, ReceivesAll, EncodeHeader, Sound, ShortNames, Welcome, Expected, OnlyText, Channel;
    var v := visits[0];
    var later := Channel(visits[1..], end);
    WelcomeSound(v.k);
    if v.Inward? {
      DownloadDelivers(v.k, sum32, v.sent, v.answers, later);
    } else {
      UploadDelivers(v.k, sum32, v.sent, v.answers, later);
    }
  }

  /** The length of what is unread tells which transfer reads. */
  lemma WhoReads(sum32: Checksum32, visits: seq<Visit>, end: bytes, dir: Dir, h: Header, s: bytes)
    requires visits != []
    ensures ReadsInTurn(sum32, visits, end, dir)(h, s) ==
              if |s| > |Channel(visits[1..], end)| then R.Reads(sum32, visits[0].k.files, dir)(h, s)
              else ReadsInTurn(sum32, visits[1..], end, LeftBehind(sum32, visits, end, dir))(h, s)
  {
    hide R.Reads, LeftBehind, Channel;
    var p := PlaceAt(sum32, visits, end, dir, |s|);
    assert ReadsInTurn(sum32, visits, end, dir)(h, s) == R.Reads(sum32, p.files, p.dir)(h, s);
    if |s| > |Channel(visits[1..], end)| {
      assert p == Place(dir, visits[0].k.files);
    } else {
      assert p == PlaceAt(sum32, visits[1..], end, LeftBehind(sum32, visits, end, dir), |s|);
    }
  }

  lemma ChannelBegins(visits: seq<Visit>, end: bytes)
    requires visits != []
    ensures Channel(visits, end) == visits[0].text + (visits[0].Coming() + Channel(visits[1..], end))
  {
  }

  /** Transfers that read as they do on this channel leave no trace on the terminal. */
  lemma {:induction false} HiddenInTurn(
      sum32: Checksum32, visits: seq<Visit>, end: bytes, dir: Dir, eats: Transfers)
    requires Proceeds(sum32, visits, end, dir)
    requires forall h, s | |s| <= |Channel(visits, end)| :: eats(h, s) == ReadsInTurn(sum32, visits, end, dir)(h, s)
    ensures Shown(eats, Channel(visits, end)) == Texts(visits, Shown(eats, end))
  {
    hide Sends, Receives, EncodeHeader, Shown, OnlyText, R.Reads, Narrow, LeftBehind, Delivers, ReadsInTurn, Channel, Body;
    if visits == [] {
      assert Channel(visits, end) == end by {
        NothingOnChannel(end);
      }
    } else {
      var v := visits[0];
      var rest := visits[1..];
      var later := Channel(rest, end);
      var unread := Unread(sum32, visits, end);
      var opening := Narrow(v.Opening());
      FirstReads(sum32, visits, end, dir);
      ChannelBegins(visits, end);
      HeaderIsLong(v.Opening());
      WhoReads(sum32, visits, end, dir, opening, unread);
      TransferHidden(eats, v.text, v.Opening(), Body(sum32, v), later);
      assert v.text + (v.Coming() + later) == Interleaved(v.text, v.Opening(), Body(sum32, v), later);
      forall h, s | |s| <= |later|
        ensures eats(h, s) == ReadsInTurn(sum32, rest, end, Delivers(v, dir))(h, s)
      {
        WhoReads(sum32, visits, end, dir, h, s);
      }
      HiddenInTurn(sum32, rest, end, Delivers(v, dir), eats);
    }
  }

  lemma NothingOnChannel(end: bytes)
    ensures Channel([], end) == end
  {
  }

  lemma HeaderIsLong(h: Header)
    requires OpensTransfer(h)
    ensures |EncodeHeader(h)| >= 1
  {
    hide EncodeHeader, HexEncode, RawHeader;
    HeaderBytes(h);
  }

  /**
   Any number of transfers, in either direction, with text before, between and behind them: the
   terminal shows the texts and nothing else, and the directory has the files of all of them,
   each transfer finding it as the earlier ones have left it.
   */
  lemma AllHidden(sum32: Checksum32, visits: seq<Visit>, end: bytes, dir: Dir)
    requires Proceeds(sum32, visits, end, dir) && OnlyText(end)
    ensures Shown(ReadsInTurn(sum32, visits, end, dir), Channel(visits, end)) == Texts(visits, end)
    ensures PlaceAt(sum32, visits, end, dir, 0).dir == DeliversAll(visits, dir)
  {
    hide Shown, OnlyText, PlaceAt;
    var eats := ReadsInTurn(sum32, visits, end, dir);
    HiddenInTurn(sum32, visits, end, dir, eats);
    Conserved(eats, end);
    PlaceInTheEnd(sum32, visits, end, dir);
  }

  lemma {:induction false} PlaceInTheEnd(sum32: Checksum32, visits: seq<Visit>, end: bytes, dir: Dir)
    requires Proceeds(sum32, visits, end, dir)
    ensures PlaceAt(sum32, visits, end, dir, 0).dir == DeliversAll(visits, dir)
  {
    hide LeftBehind, Delivers, Channel;
    if visits != [] {
      FirstReads(sum32, visits, end, dir);
      PlaceInTheEnd(sum32, visits[1..], end, Delivers(visits[0], dir));
    }
  }

  /** What is to be sent in which direction, with text in front. */
  datatype Plan = Plan(inward: bool, text: bytes, k: Setup)

  ghost predicate Follows(v: Visit, p: Plan) { v.Inward? == p.inward && v.text == p.text && v.k == p.k }

  ghost predicate Feasible(sum32: Checksum32, plans: seq<Plan>, dir: Dir) {
    plans != [] ==>
      var p := plans[0];
      && OnlyText(p.text) && Welcome(p.k) && ShortNames(p.k) && p.k.sum == Summed(sum32)
      && (p.inward ==> p.k.dir == dir)
      && Feasible(sum32, plans[1..], if p.inward then Expected(p.k, |p.k.files|) else dir)
  }

  /** Whatever is to be sent, and wherever the files are welcome, there is a channel on which it is. */
  lemma {:induction false} ChannelExists(sum32: Checksum32, plans: seq<Plan>, end: bytes, dir: Dir) returns (visits: seq<Visit>)
    requires Feasible(sum32, plans, dir)
    ensures |visits| == |plans| && forall i | 0 <= i < |plans| :: Follows(visits[i], plans[i])
    ensures Proceeds(sum32, visits, end, dir)
    decreases |plans|
  {
    hide Download, Upload, Welcome, ShortNames, OnlyText, Expected, Channel;
    visits := [];
    if plans != [] {
      var p := plans[0];
      var rest := ChannelExists(sum32, plans[1..], end, if p.inward then Expected(p.k, |p.k.files|) else dir);
      var v: Visit;
      if p.inward {
        var sent, answers := DownloadExists(p.k, sum32, Channel(rest, end));
        v := Inward(p.text, p.k, sent, answers);
      } else {
        var sent, answers := UploadExists(p.k, sum32, Channel(rest, end));
        v := Outward(p.text, p.k, sent, answers);
      }
      visits := [v] + rest;
      assert visits[1..] == rest;
    }
  }
}
