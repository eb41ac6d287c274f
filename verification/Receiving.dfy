/** The receiving side of a transfer, as a machine that reacts to what it reads. */
module Receiving {
  import opened Bytes
  import opened Wire
  import opened Metadata
  import opened Sending

  datatype Entry = Regular(content: bytes) | Special

  /** The destination directory. */
  type Dir = map<bytes, Entry>

  datatype Phase =
    | Opening
    | Ready
    | Attention
    | Meta
    | Resuming(meta: bytes, repeats: nat, digest: U32)
    | ResumingMeta(meta: bytes, repeats: nat, digest: U32)
    | Data
    | Closing(count: nat)
    | ClosingO(count: nat)
    | Finished
    | Stopped

  /** `open` says whether a file is held; then `name` is the file, `position` its write offset. */
  datatype Receiver = Receiver(phase: Phase, dir: Dir, open: bool, name: bytes, size: nat, position: nat)

  /** The outcome of one read; a read that fails is an input too. */
  datatype Input =
    | GotHead(h: Head)
    | NoHead
    | GotData(data: bytes, end: Marker)
    | NoData
    | GotByte(v: byte)
    | NoByte(eof: bool)

  datatype Reply = Reply(state: Receiver, out: seq<Head>)

  const READY: Head := Head(ZRINIT, 0x2300_0000)
  const RESUME_REPEATS: nat := 4
  const CLOSING_BYTES: nat := 32

  function Start(dir: Dir): Receiver {
    Receiver(Opening, dir, false, [], 0, 0)
  }

  /** The kind of read a phase makes. */
  predicate Fits(p: Phase, i: Input) {
    match p
    case Opening => i.GotHead? || i.NoHead?
    case Ready => i.GotHead? || i.NoHead?
    case Resuming(_, _, _) => i.GotHead? || i.NoHead?
    case Attention => i.GotData? || i.NoData?
    case Meta => i.GotData? || i.NoData?
    case ResumingMeta(_, _, _) => i.GotData? || i.NoData?
    case Data => i.GotData? || i.NoData?
    case Closing(_) => i.GotByte? || i.NoByte?
    case ClosingO(_) => i.GotByte? || i.NoByte?
    case _ => false
  }

  function Stop(r: Receiver): Reply { Reply(r.(phase := Stopped), []) }

  function Stay(r: Receiver, h: Head): Reply { Reply(r.(phase := Ready), [h]) }

  /** Numbers that are written to the wire are cut to 32 bits. */
  function Cut(n: nat): U32 { n % 0x1_0000_0000 }

  function ContentOf(dir: Dir, name: bytes): bytes {
    if name in dir && dir[name].Regular? then dir[name].content else []
  }

  /** Metadata has arrived: refuse it, ask for a checksum of what is there, or open the file. */
  function OnMeta(sum: Sum32, r: Receiver, meta: bytes): Reply {
    var p := Parse(meta);
    if p.None? then Stop(r) else
    var (name, size) := p.value;
    var there := name in r.dir;
    if there && (r.dir[name].Special? || |r.dir[name].content| > size) then Stop(r) else
    var content := ContentOf(r.dir, name);
    var r' := r.(name := name, size := size, position := |content|);
    if content != [] then
      Reply(r'.(phase := Resuming(meta, 0, sum(content))), [Head(ZCRC, Cut(|content|))])
    else
      Stay(r'.(dir := r.dir[name := Regular([])], open := true), Head(ZRPOS, 0))
  }

  function OnResume(r: Receiver, h: Head): Reply
    requires r.phase.Resuming?
  {
    if h.kind == ZCRC then
      if h.pos != r.phase.digest then Stop(r)
      else Stay(r.(open := true), Head(ZRPOS, Cut(r.position)))
    else if h.kind == ZFILE then
      Reply(r.(phase := ResumingMeta(r.phase.meta, r.phase.repeats, r.phase.digest)), [])
    else Stop(r)
  }

  function OnResumeMeta(r: Receiver, meta: bytes): Reply
    requires r.phase.ResumingMeta?
  {
    if meta != r.phase.meta || r.phase.repeats + 1 > RESUME_REPEATS then Stop(r)
    else Reply(r.(phase := Resuming(meta, r.phase.repeats + 1, r.phase.digest)), [])
  }

  /** Writing `data` into a file at an offset; a gap before it fills with zeros. */
  function WriteAt(content: bytes, at: nat, data: bytes): bytes {
    (if at <= |content| then content[..at] else content + seq(at - |content|, _ => 0))
    + data + (if at + |data| <= |content| then content[at + |data|..] else [])
  }

  /** A subpacket of file data that passed its checksum. */
  function OnData(r: Receiver, data: bytes, end: Marker): Reply {
    var content := ContentOf(r.dir, r.name);
    if r.position + |data| > r.size then Stop(r) else
    var position := r.position + |data|;
    var r' := r.(dir := r.dir[r.name := Regular(WriteAt(content, r.position, data))],
                 position := position,
                 phase := if end == ZCRCE || end == ZCRCW then Ready else Data);
    Reply(r', if end == ZCRCQ || end == ZCRCW then [Head(ZACK, Cut(position))] else [])
  }

  function OnHead(r: Receiver, h: Head): Reply {
    if h.kind == ZRQINIT then Stay(r, READY)
    else if h.kind == ZSINIT then Reply(r.(phase := Attention), [])
    else if h.kind == ZFILE then Reply(r.(phase := Meta), [])
    else if h.kind == ZDATA then
      if !r.open || h.pos != r.position then Stop(r) else Reply(r.(phase := Data), [])
    else if h.kind == ZEOF then
      if !r.open || h.pos != r.position || r.position != r.size then Stop(r)
      else Stay(r.(open := false), READY)
    else if h.kind == ZFIN then
      if r.open then Stop(r) else Reply(r.(phase := Closing(0)), [Head(ZFIN, 0)])
    else Stop(r)
  }

  function Close(r: Receiver, count: nat): Reply {
    Reply(r.(phase := if count < CLOSING_BYTES then Closing(count) else Stopped), [])
  }

  function Step(sum: Sum32, r: Receiver, i: Input): Reply
    requires Fits(r.phase, i)
  {
    match i
    case NoHead => Stop(r)
    case NoData => if r.phase.Data? then Stay(r, Head(ZRPOS, Cut(r.position))) else Stop(r)
    case NoByte(eof) =>
      if r.phase.Closing? && eof then Reply(r.(phase := Finished), []) else Stop(r)
    case GotByte(v) =>
      if r.phase.ClosingO? then
        if v == BIG_O then Reply(r.(phase := Finished), []) else Close(r, r.phase.count + 1)
      else if v == BIG_O then Reply(r.(phase := ClosingO(r.phase.count)), [])
      else Close(r, r.phase.count + 1)
    case GotHead(h) =>
      if r.phase.Opening? then (if h.kind == ZRQINIT then Stay(r, READY) else Stop(r))
      else if r.phase.Resuming? then OnResume(r, h)
      else OnHead(r, h)
    case GotData(data, end) =>
      if r.phase.Attention? then Stay(r, Head(ZACK, 1))
      else if r.phase.Meta? then OnMeta(sum, r, data)
      else if r.phase.ResumingMeta? then OnResumeMeta(r, data)
      else OnData(r, data, end)
  }

  // ---------------------------------------------------- against any peer

  /**
   The receiver with its history: what the current file held when it was opened, and the
   subpackets accepted since.
   */
  datatype Watched = Watched(r: Receiver, kept: bytes, accepted: seq<bytes>)

  function Watch(sum: Sum32, w: Watched, i: Input): Watched
    requires Fits(w.r.phase, i)
  {
    var r' := Step(sum, w.r, i).state;
    if i.GotData? && w.r.phase.Data? && !r'.phase.Stopped? then
      Watched(r', w.kept, w.accepted + [i.data])
    else if (w.r.phase.Meta? || w.r.phase.Resuming?) && r'.phase.Ready? then
      Watched(r', ContentOf(r'.dir, r'.name), [])
    else w.(r := r')
  }

  function Flatten(parts: seq<bytes>): bytes {
    if parts == [] then [] else Flatten(parts[..|parts| - 1]) + parts[|parts| - 1]
  }

  /** The file named in the state is there, with as many bytes as the position says. */
  ghost predicate AtPosition(r: Receiver) {
    r.name in r.dir && r.dir[r.name].Regular?
    && |r.dir[r.name].content| == r.position <= r.size <= MAX_SIZE
  }

  /** While a file is open it holds what was kept, then what was accepted, and nothing else. */
  ghost predicate FileIsAccepted(w: Watched) {
    AtPosition(w.r) && w.r.dir[w.r.name].content == w.kept + Flatten(w.accepted)
  }

  ghost predicate Inv(sum: Sum32, w: Watched) {
    match w.r.phase
    case Opening => !w.r.open
    case Resuming(_, _, digest) => AtPosition(w.r) && digest == sum(w.r.dir[w.r.name].content)
    case ResumingMeta(_, _, digest) => AtPosition(w.r) && digest == sum(w.r.dir[w.r.name].content)
    case Data => w.r.open && FileIsAccepted(w)
    case Stopped => true
    case _ => w.r.open ==> FileIsAccepted(w)
  }

  /**
   What the peer is told is true of the disk: an offset is the length of the open file, a
   completed file has the advertised size, and bytes are kept only after the peer has
   sent their checksum.
   */
  ghost predicate Honest(sum: Sum32, before: Receiver, i: Input, after: Receiver, out: seq<Head>) {
    && (forall h | h in out ::
          h.kind == ZRPOS || (h.kind == ZACK && before.phase.Data?) ==>
          after.open && AtPosition(after) && h.pos == after.position)
    && (forall h | h in out :: h.kind == ZRPOS && h.pos > 0 && !before.phase.Data? ==>
          i.GotHead? && i.h.kind == ZCRC && i.h.pos == sum(after.dir[after.name].content))
    && (before.phase.Ready? && i.GotHead? && i.h.kind == ZEOF && out != [] ==>
          out == [READY] && before.open && AtPosition(before)
          && before.position == before.size && after == before.(open := false))
  }

  /** Files already there keep their bytes, and only safe names are added. */
  ghost predicate OnlyGrows(a: Dir, b: Dir) {
    && (forall n | n in a :: n in b && (a[n].Special? ==> b[n].Special?)
                             && (a[n].Regular? ==> b[n].Regular? && a[n].content <= b[n].content))
    && (forall n | n in b && n !in a :: StaysInside(n))
  }

  ghost predicate StepSafe(sum: Sum32, w: Watched, i: Input)
    requires Fits(w.r.phase, i)
  {
    var t := Step(sum, w.r, i);
    Inv(sum, Watch(sum, w, i)) && Honest(sum, w.r, i, t.state, t.out) && OnlyGrows(w.r.dir, t.state.dir)
  }

  lemma Append(content: bytes, data: bytes)
    ensures WriteAt(content, |content|, data) == content + data
  {
  }

  lemma FlattenSnoc(parts: seq<bytes>, data: bytes)
    ensures Flatten(parts + [data]) == Flatten(parts) + data
  {
    assert (parts + [data])[..|parts|] == parts;
  }

  lemma MetaSafe(sum: Sum32, w: Watched, i: Input)
    requires Inv(sum, w) && w.r.phase.Meta? && i.GotData?
    ensures StepSafe(sum, w, i)
  {
    hide Parse, SafeName, StaysInside;
    if i.GotData? {
      OnlyInside(i.data);
    }
    assert Flatten([]) == [];
  }

  lemma ResumeSafe(sum: Sum32, w: Watched, i: Input)
    requires Inv(sum, w) && w.r.phase.Resuming? && i.GotHead?
    ensures StepSafe(sum, w, i)
  {
    assert Flatten([]) == [];
  }

  lemma DataSafe(sum: Sum32, w: Watched, i: Input)
    requires Inv(sum, w) && w.r.phase.Data? && i.GotData?
    ensures StepSafe(sum, w, i)
  {
    hide WriteAt, Flatten, SafeName, StaysInside;
    var content := ContentOf(w.r.dir, w.r.name);
    Append(content, i.data);
    FlattenSnoc(w.accepted, i.data);
  }

  lemma HeadSafe(sum: Sum32, w: Watched, i: Input)
    requires Inv(sum, w) && w.r.phase.Ready? && i.GotHead?
    ensures StepSafe(sum, w, i)
  {
  }

  /** One read of any kind, with any outcome, from any state that keeps the invariant. */
  lemma ReceiverStep(sum: Sum32, w: Watched, i: Input)
    requires Inv(sum, w) && Fits(w.r.phase, i)
    ensures StepSafe(sum, w, i)
  {
    hide OnMeta, OnData, SafeName, StaysInside, Flatten;
    if w.r.phase.Meta? && i.GotData? {
      MetaSafe(sum, w, i);
    } else if w.r.phase.Resuming? && i.GotHead? {
      ResumeSafe(sum, w, i);
    } else if w.r.phase.Data? && i.GotData? {
      DataSafe(sum, w, i);
    } else if w.r.phase.Ready? && i.GotHead? {
      HeadSafe(sum, w, i);
    }
  }

  /** The receiver after a run of reads; a read of the wrong kind is not made. */
  function Run(sum: Sum32, dir: Dir, inputs: seq<Input>): Watched {
    if inputs == [] then Watched(Start(dir), [], []) else
    var w := Run(sum, dir, inputs[..|inputs| - 1]);
    var i := inputs[|inputs| - 1];
    if Fits(w.r.phase, i) then Watch(sum, w, i) else w
  }

  lemma GrowsTransitively(a: Dir, b: Dir, c: Dir)
    requires OnlyGrows(a, b) && OnlyGrows(b, c)
    ensures OnlyGrows(a, c)
  {
  }

  /** Whatever the peer sends, for as long as it likes. */
  lemma {:induction false} ReceiverSafe(sum: Sum32, dir: Dir, inputs: seq<Input>)
    ensures Inv(sum, Run(sum, dir, inputs))
    ensures OnlyGrows(dir, Run(sum, dir, inputs).r.dir)
    ensures forall i | Fits(Run(sum, dir, inputs).r.phase, i) :: StepSafe(sum, Run(sum, dir, inputs), i)
  {
    if inputs != [] {
      var earlier := inputs[..|inputs| - 1];
      var w := Run(sum, dir, earlier);
      var i := inputs[|inputs| - 1];
      ReceiverSafe(sum, dir, earlier);
      if Fits(w.r.phase, i) {
        ReceiverStep(sum, w, i);
        GrowsTransitively(dir, w.r.dir, Step(sum, w.r, i).state.dir);
      }
    }
    var now := Run(sum, dir, inputs);
    forall i | Fits(now.r.phase, i)
      ensures StepSafe(sum, now, i)
    {
      ReceiverStep(sum, now, i);
    }
  }
}
