/**
 Sender and receiver joined by two queues. The line may damage any subpacket, so that its
 checksum fails; headers are reliable, because both sides give up on a bad one.
 */
module Session {
  import opened Bytes
  import opened Wire
  import opened Metadata
  import opened Sending
  import opened Receiving

  datatype Session = Session(s: State, r: Receiver, down: seq<Msg>, up: seq<Head>)

  /** What is fixed for a session. */
  datatype Setup = Setup(files: seq<Source>, dir: Dir, sum: Sum32)

  predicate Begins(k: Setup, j: Session) {
    j == Session(AwaitInit, Start(k.dir), [Control(Head(ZRQINIT, 0))], [])
  }

  // ------------------------------------------------------------------- steps

  predicate Carries(sent: Msg, got: Msg) {
    got == sent || (sent.Packet? && got.Damaged?)
  }

  /** What the line makes of one write. */
  predicate Transmits(sent: seq<Msg>, got: seq<Msg>) {
    |sent| == |got| && forall i | 0 <= i < |sent| :: Carries(sent[i], got[i])
  }

  function Arrives(m: Msg): Input {
    match m
    case Control(h) => GotHead(h)
    case Packet(data, end) => GotData(data, end)
    case Damaged => NoData
    case Octet(v) => GotByte(v)
  }

  ghost predicate SenderMoves(k: Setup, j: Session, j': Session) {
    && j.up != [] && WellFormed(k.files, j.s) && Active(j.s)
    && var t := Sending.Step(k.files, k.sum, j.s, j.up[0]);
    && j'.s == t.state && j'.r == j.r && j'.up == j.up[1..]
    && |j'.down| == |j.down| + |t.out| && j'.down[..|j.down|] == j.down
    && Transmits(t.out, j'.down[|j.down|..])
  }

  ghost predicate ReceiverMoves(k: Setup, j: Session, j': Session) {
    && j.down != [] && Fits(j.r.phase, Arrives(j.down[0]))
    && var t := Receiving.Step(k.sum, j.r, Arrives(j.down[0]));
    && j' == Session(j.s, t.state, j.down[1..], j.up + t.out)
  }

  /** A side is cancelled, or hears that the other has given up. */
  predicate GivesUp(j: Session, j': Session) {
    || (Active(j.s) && j' == j.(s := State.Failed))
    || (!j.r.phase.Stopped? && !j.r.phase.Finished? && j' == j.(r := j.r.(phase := Stopped)))
  }

  ghost predicate Next(k: Setup, j: Session, j': Session) {
    SenderMoves(k, j, j') || ReceiverMoves(k, j, j') || GivesUp(j, j')
  }

  predicate Lost(j: Session) { j.s.Failed? || j.r.phase.Stopped? }

  /** Both sides have returned without an error. */
  predicate Delivered(j: Session) { j.s.Sent? && j.r.phase.Finished? }

  // ------------------------------------------------------------ expectations

  /** The destination after the first `i` files: each replaces what had its name. */
  function Expected(k: Setup, i: nat): Dir
    requires i <= |k.files|
  {
    if i == 0 then k.dir else
    Expected(k, i - 1)[k.files[i - 1].name := Regular(k.files[i - 1].content)]
  }

  /** What is in the way of file `i` when its turn comes. */
  function Before(k: Setup, i: nat): bytes
    requires i < |k.files|
  {
    ContentOf(Expected(k, i), k.files[i].name)
  }

  predicate IsPrefix(a: bytes, b: bytes) { |a| <= |b| && a == b[..|a|] }

  /** The checksum tells the one prefix that is compared from what it is compared with. */
  ghost predicate NoCollision(k: Setup) {
    forall i | 0 <= i < |k.files| ::
      var (e, content) := (Before(k, i), k.files[i].content);
      |e| <= |content| && k.sum(e) == k.sum(content[..|e|]) ==> e == content[..|e|]
  }

  /** File names, as an operating system delivers them. */
  predicate NamesHaveNoNul(k: Setup) {
    forall i | 0 <= i < |k.files| :: NUL !in k.files[i].name
  }

  ghost predicate Sound(k: Setup) { NoCollision(k) && NamesHaveNoNul(k) }

  // --------------------------------------------------------------- invariant

  predicate Idle(k: Setup, r: Receiver, i: nat)
    requires i <= |k.files|
  {
    !r.open && r.dir == Expected(k, i)
  }

  /** The open file holds exactly the first `p` bytes of its source. */
  predicate Partial(k: Setup, r: Receiver, i: nat, p: nat)
    requires i < |k.files|
  {
    var f := k.files[i];
    p <= |f.content| && r.open && r.name == f.name && r.size == |f.content| && r.position == p
    && r.dir == Expected(k, i)[f.name := Regular(f.content[..p])]
  }

  /** Waiting for the answer to a comparison of what is already there. */
  predicate Comparing(k: Setup, r: Receiver, i: nat)
    requires i < |k.files|
  {
    var f := k.files[i];
    var e := Before(k, i);
    && r.phase == Resuming(Format(f.name, |f.content|), 0, k.sum(e)) && Idle(k, r, i)
    && f.name in r.dir && r.dir[f.name] == Regular(e)
    && r.name == f.name && r.size == |f.content| && r.position == |e| && 0 < |e| <= |f.content|
  }

  predicate SyncInit(k: Setup, j: Session) {
    Idle(k, j.r, 0)
    && ((j.r.phase.Opening? && j.down == [Control(Head(ZRQINIT, 0))] && j.up == [])
        || (j.r.phase.Ready? && j.down == [] && j.up == [READY]))
  }

  predicate SyncStart(k: Setup, j: Session, i: nat, tries: nat)
    requires i < |k.files|
  {
    var f := k.files[i];
    var offer := Packet(Format(f.name, |f.content|), ZCRCW);
    || (tries == 0 && j.up == [] && Idle(k, j.r, i) && j.r.phase.Ready?
        && |j.down| == 2 && j.down[0] == Control(Head(ZFILE, 0)) && Carries(offer, j.down[1]))
    || (tries == 0 && j.up == [] && Idle(k, j.r, i) && j.r.phase.Meta?
        && |j.down| == 1 && Carries(offer, j.down[0]))
    || (tries == 0 && j.down == [] && Comparing(k, j.r, i) && j.up == [Head(ZCRC, Cut(j.r.position))])
    || (tries == 1 && j.up == [] && Comparing(k, j.r, i)
        && j.down == [Control(Head(ZCRC, k.sum(f.content[..j.r.position])))])
    || (tries <= 1 && j.down == [] && j.r.phase.Ready? && Partial(k, j.r, i, j.r.position)
        && j.up == [Head(ZRPOS, Cut(j.r.position))])
  }

  predicate SyncAck(k: Setup, j: Session, i: nat, pos: nat, n: nat)
    requires i < |k.files| && pos + n <= |k.files[i].content| <= MAX_SIZE && 0 < n
  {
    var chunk := Packet(k.files[i].content[pos..pos + n], ZCRCW);
    || (j.up == [] && j.r.phase.Ready? && Partial(k, j.r, i, pos)
        && |j.down| == 2 && j.down[0] == Control(Head(ZDATA, pos)) && Carries(chunk, j.down[1]))
    || (j.up == [] && j.r.phase.Data? && Partial(k, j.r, i, pos)
        && |j.down| == 1 && Carries(chunk, j.down[0]))
    || (j.down == [] && j.r.phase.Ready? && Partial(k, j.r, i, pos + n)
        && j.up == [Head(ZACK, pos + n)])
    || (j.down == [] && j.r.phase.Ready? && Partial(k, j.r, i, pos) && j.up == [Head(ZRPOS, pos)])
  }

  predicate SyncNext(k: Setup, j: Session, i: nat)
    requires i < |k.files| && |k.files[i].content| <= MAX_SIZE
  {
    var size := |k.files[i].content|;
    j.r.phase.Ready?
    && ((j.up == [] && Partial(k, j.r, i, size) && j.down == [Control(Head(ZEOF, size))])
        || (j.down == [] && Idle(k, j.r, i + 1) && j.up == [READY]))
  }

  predicate SyncFin(k: Setup, j: Session, tries: nat) {
    tries == 0 && Idle(k, j.r, |k.files|)
    && ((j.r.phase.Ready? && j.down == [Control(Head(ZFIN, 0))] && j.up == [])
        || (j.r.phase == Closing(0) && j.down == [] && j.up == [Head(ZFIN, 0)]))
  }

  predicate SyncSent(k: Setup, j: Session) {
    Idle(k, j.r, |k.files|) && j.up == []
    && ((j.r.phase == Closing(0) && j.down == [Octet(BIG_O), Octet(BIG_O)])
        || (j.r.phase == ClosingO(0) && j.down == [Octet(BIG_O)])
        || (j.r.phase.Finished? && j.down == []))
  }

  /** Where the two sides stand together: one of them has something to do. */
  predicate Sync(k: Setup, j: Session) {
    WellFormed(k.files, j.s) &&
    match j.s
    case AwaitInit => SyncInit(k, j)
    case AwaitStart(i, tries) => SyncStart(k, j, i, tries)
    case AwaitAck(i, pos, n, _) => SyncAck(k, j, i, pos, n)
    case AwaitNext(i) => SyncNext(k, j, i)
    case AwaitFin(tries) => SyncFin(k, j, tries)
    case Sent => SyncSent(k, j)
    case Failed => true
  }

  predicate InStep(k: Setup, j: Session) { Lost(j) || Sync(k, j) }
}
