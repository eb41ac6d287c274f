/** The sending side of a transfer, as a machine that reacts to the headers it reads. */
module Sending {
  import opened Bytes
  import opened Wire
  import opened Metadata

  type U32 = n: nat | n <= 0xffff_ffff

  /** The library CRC-32 of the original; any function will do. */
  type Sum32 = bytes -> U32

  datatype Head = Head(kind: byte, pos: U32)

  /** What travels from sender to receiver. A damaged subpacket fails its checksum. */
  datatype Msg = Control(h: Head) | Packet(data: bytes, end: Marker) | Damaged | Octet(v: byte)

  datatype Source = Source(name: bytes, content: bytes, regular: bool)

  const CHUNK: nat := 8192
  const START_TRIES: nat := 20
  const FIN_TRIES: nat := 10
  const MAX_RETRIES: nat := 20
  const BIG_O: byte := 79

  datatype State =
    | AwaitInit
    | AwaitStart(file: nat, tries: nat)
    | AwaitAck(file: nat, pos: U32, n: nat, retries: nat)
    | AwaitNext(file: nat)
    | AwaitFin(tries: nat)
    | Sent
    | Failed

  datatype Turn = Turn(state: State, out: seq<Msg>)

  predicate Sendable(f: Source) { f.regular && |f.content| <= MAX_SIZE }

  predicate WellFormed(files: seq<Source>, s: State) {
    match s
    case AwaitStart(i, tries) => i < |files| && Sendable(files[i]) && tries < START_TRIES
    case AwaitAck(i, pos, n, retries) =>
      i < |files| && Sendable(files[i]) && 0 < n && pos + n <= |files[i].content| && retries <= MAX_RETRIES
    case AwaitNext(i) => i < |files| && Sendable(files[i])
    case AwaitFin(tries) => tries < FIN_TRIES
    case _ => true
  }

  /** Announce file `i`, or the end of the session when there is none. */
  function Offer(files: seq<Source>, i: nat): (t: Turn)
    requires i <= |files|
    ensures WellFormed(files, t.state)
  {
    if i == |files| then Turn(AwaitFin(0), [Control(Head(ZFIN, 0))])
    else if !Sendable(files[i]) then Turn(Failed, [])
    else
      var meta := Format(files[i].name, |files[i].content|);
      Turn(AwaitStart(i, 0), [Control(Head(ZFILE, 0)), Packet(meta, ZCRCW)])
  }

  function ChunkSize(content: bytes, pos: nat): nat
    requires pos <= |content|
  {
    if |content| - pos < CHUNK then |content| - pos else CHUNK
  }

  /** Send the chunk at `pos`, or the end of the file when there is none. */
  function SendChunk(files: seq<Source>, i: nat, pos: U32, retries: nat): (t: Turn)
    requires i < |files| && Sendable(files[i]) && pos <= |files[i].content| && retries <= MAX_RETRIES
    ensures WellFormed(files, t.state) && !t.state.Failed?
  {
    var content := files[i].content;
    if pos == |content| then Turn(AwaitNext(i), [Control(Head(ZEOF, pos))]) else
    var n := ChunkSize(content, pos);
    Turn(AwaitAck(i, pos, n, retries), [Control(Head(ZDATA, pos)), Packet(content[pos..pos + n], ZCRCW)])
  }

  /** Waiting for the receiver to say where to start. */
  function OnStart(files: seq<Source>, sum: Sum32, i: nat, tries: nat, h: Head): (t: Turn)
    requires WellFormed(files, AwaitStart(i, tries))
    ensures WellFormed(files, t.state)
  {
    var content := files[i].content;
    var again := if tries + 1 < START_TRIES then Turn(AwaitStart(i, tries + 1), [])
                 else SendChunk(files, i, 0, 0);
    if h.kind == ZSKIP then Offer(files, i + 1)
    else if h.kind == ZCRC then
      var n := if h.pos == 0 then |content| else h.pos;
      if n > |content| then Turn(Failed, [])
      else again.(out := [Control(Head(ZCRC, sum(content[..n])))] + again.out)
    else if h.kind == ZRPOS then
      if h.pos > |content| then Turn(Failed, []) else SendChunk(files, i, h.pos, 0)
    else again
  }

  function OnAck(files: seq<Source>, i: nat, pos: U32, n: nat, retries: nat, h: Head): (t: Turn)
    requires WellFormed(files, AwaitAck(i, pos, n, retries))
    ensures WellFormed(files, t.state)
  {
    if h.kind == ZACK then
      if h.pos != pos + n then Turn(Failed, []) else SendChunk(files, i, pos + n, 0)
    else if h.kind == ZRPOS then
      if h.pos > |files[i].content| || retries + 1 > MAX_RETRIES then Turn(Failed, [])
      else SendChunk(files, i, h.pos, retries + 1)
    else Turn(Failed, [])
  }

  predicate Active(s: State) { !s.Sent? && !s.Failed? }

  function Step(files: seq<Source>, sum: Sum32, s: State, h: Head): (t: Turn)
    requires WellFormed(files, s) && Active(s)
    ensures WellFormed(files, t.state)
  {
    match s
    case AwaitInit => if h.kind == ZRINIT then Offer(files, 0) else Turn(Failed, [])
    case AwaitStart(i, tries) => OnStart(files, sum, i, tries, h)
    case AwaitAck(i, pos, n, retries) => OnAck(files, i, pos, n, retries, h)
    case AwaitNext(i) => if h.kind == ZRINIT then Offer(files, i + 1) else Turn(Failed, [])
    case AwaitFin(tries) =>
      if h.kind == ZFIN then Turn(Sent, [Octet(BIG_O), Octet(BIG_O)])
      else if tries + 1 < FIN_TRIES then Turn(AwaitFin(tries + 1), [])
      else Turn(Failed, [])
  }
}
