/** A session stays in step, comes to an end, and delivers every file. */
module SessionProofs {
  import opened Bytes
  import opened Wire
  import opened Metadata
  import opened Sending
  import opened Receiving
  import opened Session

  // ----------------------------------------------------------------- ranking

  function Level(k: Setup, s: State): nat
    requires WellFormed(k.files, s)
  {
    var n := |k.files|;
    match s
    case AwaitInit => 3 * n + 2
    case AwaitStart(i, _) => 3 * (n - i) + 1
    case AwaitAck(i, _, _, _) => 3 * (n - i)
    case AwaitNext(i) => 3 * (n - i) - 1
    case AwaitFin(_) => 1
    case _ => 0
  }

  /** Bytes of the current file the sender has not seen acknowledged. */
  function Left(k: Setup, s: State): nat
    requires WellFormed(k.files, s)
  {
    if s.AwaitAck? then |k.files[s.file].content| - s.pos else 0
  }

  function Tries(k: Setup, s: State): (n: nat)
    requires WellFormed(k.files, s)
    ensures n <= MAX_RETRIES
  {
    match s
    case AwaitStart(_, tries) => START_TRIES - tries
    case AwaitAck(_, _, _, retries) => MAX_RETRIES - retries
    case _ => 0
  }

  function Micro(j: Session): nat { 2 * |j.down| + |j.up| }

  /** Lexicographic: file and stage, bytes to go, attempts to go, messages in flight. */
  predicate Below(k: Setup, a: Session, b: Session)
    requires WellFormed(k.files, a.s) && WellFormed(k.files, b.s)
  {
    var (la, lb) := (Level(k, a.s), Level(k, b.s));
    var (ba, bb) := (Left(k, a.s), Left(k, b.s));
    var (ta, tb) := (Tries(k, a.s), Tries(k, b.s));
    la < lb || (la == lb && (ba < bb || (ba == bb && (ta < tb || (ta == tb && Micro(a) < Micro(b))))))
  }

  // -------------------------------------------------------------- one step on

  ghost predicate Progress(k: Setup, j: Session, j': Session) {
    Lost(j')
    || (Sync(k, j') && WellFormed(k.files, j.s) && WellFormed(k.files, j'.s) && Below(k, j', j))
  }

  lemma Two(a: Msg, b: Msg, got: seq<Msg>)
    requires Transmits([a, b], got)
    ensures |got| == 2 && Carries(a, got[0]) && Carries(b, got[1])
  {
    assert Carries([a, b][0], got[0]) && Carries([a, b][1], got[1]);
  }

  lemma One(a: Msg, got: seq<Msg>)
    requires Transmits([a], got) && !a.Packet?
    ensures got == [a]
  {
    assert Carries([a][0], got[0]);
  }

  /** The sender turns to file `i`, and the receiver is ready for it. */
  lemma Offers(k: Setup, i: nat, r: Receiver, got: seq<Msg>)
    requires i <= |k.files| && Idle(k, r, i) && r.phase.Ready?
    requires Transmits(Offer(k.files, i).out, got)
    ensures var s := Offer(k.files, i).state; s.Failed? || Sync(k, Session(s, r, got, []))
  {
    var t := Offer(k.files, i);
    if i == |k.files| {
      One(t.out[0], got);
    } else if Sendable(k.files[i]) {
      Two(t.out[0], t.out[1], got);
    }
  }

  /** The sender turns to the chunk at `p`, and the receiver has everything before it. */
  lemma Chunks(k: Setup, i: nat, p: U32, retries: nat, r: Receiver, got: seq<Msg>)
    requires i < |k.files| && Sendable(k.files[i]) && retries <= MAX_RETRIES
    requires Partial(k, r, i, p) && r.phase.Ready?
    requires Transmits(SendChunk(k.files, i, p, retries).out, got)
    ensures Sync(k, Session(SendChunk(k.files, i, p, retries).state, r, got, []))
  {
    var t := SendChunk(k.files, i, p, retries);
    if p == |k.files[i].content| {
      One(t.out[0], got);
    } else {
      Two(t.out[0], t.out[1], got);
    }
  }

  lemma Small(n: nat)
    requires n <= MAX_SIZE
    ensures Cut(n) == n
  {
  }

  lemma SenderOnInit(k: Setup, j: Session, j': Session)
    requires Sync(k, j) && j.s.AwaitInit? && SenderMoves(k, j, j')
    ensures Progress(k, j, j')
  {
    hide Idle, Format;
    assert j'.down == j'.down[|j.down|..];
    Offers(k, 0, j.r, j'.down);
  }

  lemma SenderOnStart(k: Setup, j: Session, j': Session)
    requires Sync(k, j) && j.s.AwaitStart? && SenderMoves(k, j, j')
    ensures Progress(k, j, j')
  {
    hide Idle, Format;
    var i := j.s.file;
    assert j'.down == j'.down[|j.down|..];
    Small(j.r.position);
    if j.up == [Head(ZRPOS, Cut(j.r.position))] {
      Chunks(k, i, j.r.position, 0, j.r, j'.down);
    } else {
      var answer := Control(Head(ZCRC, k.sum(k.files[i].content[..j.r.position])));
      assert [answer] + [] == [answer];
      One(answer, j'.down);
    }
  }

  lemma SenderOnAck(k: Setup, j: Session, j': Session)
    requires Sync(k, j) && j.s.AwaitAck? && SenderMoves(k, j, j')
    ensures Progress(k, j, j')
  {
    hide Partial, Format;
    var (i, pos, n, retries) := (j.s.file, j.s.pos, j.s.n, j.s.retries);
    assert j'.down == j'.down[|j.down|..];
    if j.up == [Head(ZACK, pos + n)] {
      Chunks(k, i, pos + n, 0, j.r, j'.down);
    } else if retries < MAX_RETRIES {
      Chunks(k, i, pos, retries + 1, j.r, j'.down);
    }
  }

  lemma NextAnswered(k: Setup, j: Session)
    requires Sync(k, j) && j.s.AwaitNext? && j.up != []
    ensures WellFormed(k.files, j.s) && Idle(k, j.r, j.s.file + 1) && j.r.phase.Ready?
    ensures j.down == [] && j.up == [READY]
  {
    hide Idle, Partial;
  }

  lemma SenderOnNext(k: Setup, j: Session, j': Session)
    requires Sync(k, j) && j.s.AwaitNext? && SenderMoves(k, j, j')
    ensures Progress(k, j, j')
  {
    hide Sync, Idle, Format;
    NextAnswered(k, j);
    assert j'.down == j'.down[|j.down|..];
    Offers(k, j.s.file + 1, j.r, j'.down);
    assert j' == Session(j'.s, j.r, j'.down, []);
  }

  lemma SenderOnFin(k: Setup, j: Session, j': Session)
    requires Sync(k, j) && j.s.AwaitFin? && SenderMoves(k, j, j')
    ensures Progress(k, j, j')
  {
    hide Idle;
    assert j'.down == j'.down[|j.down|..];
    Two(Octet(BIG_O), Octet(BIG_O), j'.down);
  }

  lemma SenderStep(k: Setup, j: Session, j': Session)
    requires Sync(k, j) && !Lost(j) && SenderMoves(k, j, j')
    ensures Progress(k, j, j')
  {
    hide Sync, Progress, SenderMoves;
    SenderActive(k, j, j');
    match j.s
    case AwaitInit => SenderOnInit(k, j, j');
    case AwaitStart(_, _) => SenderOnStart(k, j, j');
    case AwaitAck(_, _, _, _) => SenderOnAck(k, j, j');
    case AwaitNext(_) => SenderOnNext(k, j, j');
    case AwaitFin(_) => SenderOnFin(k, j, j');
    case _ =>
  }

  lemma SenderActive(k: Setup, j: Session, j': Session)
    requires SenderMoves(k, j, j')
    ensures Active(j.s)
  {
  }

  lemma ReceiverOnInit(k: Setup, j: Session, j': Session)
    requires Sync(k, j) && j.s.AwaitInit? && ReceiverMoves(k, j, j')
    ensures Progress(k, j, j')
  {
    hide Expected;
  }

  /** Metadata that arrives as it was sent is parsed as it was meant. */
  lemma OffersParse(k: Setup, i: nat)
    requires i < |k.files| && Sendable(k.files[i]) && NamesHaveNoNul(k)
    ensures var f := k.files[i];
            Parse(Format(f.name, |f.content|)) == if SafeName(f.name) then Some((f.name, |f.content|)) else None
  {
    MetadataRoundTrip(k.files[i].name, |k.files[i].content|);
  }

  lemma ReceiverOnMeta(k: Setup, j: Session, j': Session)
    requires Sync(k, j) && j.s.AwaitStart? && ReceiverMoves(k, j, j') && Sound(k)
    requires j.r.phase.Meta?
    ensures Progress(k, j, j')
  {
    hide Expected, Parse, Format, SafeName;
    var i := j.s.file;
    var f := k.files[i];
    OffersParse(k, i);
    if |Before(k, i)| <= |f.content| {
      Small(|Before(k, i)|);
    }
    assert f.content[..0] == [];
  }

  /** The checksum the sender answers with lets the receiver go on only from a true prefix. */
  lemma ReceiverOnCompare(k: Setup, j: Session, j': Session)
    requires Sync(k, j) && j.s.AwaitStart? && ReceiverMoves(k, j, j') && Sound(k)
    requires j.r.phase.Resuming?
    ensures Progress(k, j, j')
  {
    hide Expected, Format;
    var i := j.s.file;
    var f := k.files[i];
    var e := Before(k, i);
    if !j'.r.phase.Stopped? {
      assert e == f.content[..|e|];
      assert j.r.dir == j.r.dir[f.name := Regular(e)];
    }
  }

  lemma ReceiverOnStart(k: Setup, j: Session, j': Session)
    requires Sync(k, j) && j.s.AwaitStart? && ReceiverMoves(k, j, j') && Sound(k)
    ensures Progress(k, j, j')
  {
    hide Expected, Format;
    if j.r.phase.Meta? {
      ReceiverOnMeta(k, j, j');
    } else if j.r.phase.Resuming? {
      ReceiverOnCompare(k, j, j');
    }
  }

  lemma AppendChunk(content: bytes, pos: nat, n: nat)
    requires pos + n <= |content|
    ensures WriteAt(content[..pos], pos, content[pos..pos + n]) == content[..pos + n]
  {
  }

  lemma ReceiverOnAck(k: Setup, j: Session, j': Session)
    requires Sync(k, j) && j.s.AwaitAck? && ReceiverMoves(k, j, j')
    ensures Progress(k, j, j')
  {
    hide Expected, WriteAt;
    var (i, pos, n) := (j.s.file, j.s.pos, j.s.n);
    var f := k.files[i];
    AppendChunk(f.content, pos, n);
    Small(pos);
    Small(pos + n);
    var dir := Expected(k, i);
    assert dir[f.name := Regular(f.content[..pos])][f.name := Regular(f.content[..pos + n])]
           == dir[f.name := Regular(f.content[..pos + n])];
  }

  lemma ReceiverOnNext(k: Setup, j: Session, j': Session)
    requires Sync(k, j) && j.s.AwaitNext? && ReceiverMoves(k, j, j')
    ensures Progress(k, j, j')
  {
    var f := k.files[j.s.file];
    assert f.content[..|f.content|] == f.content;
  }

  lemma ReceiverOnFin(k: Setup, j: Session, j': Session)
    requires Sync(k, j) && (j.s.AwaitFin? || j.s.Sent?) && ReceiverMoves(k, j, j')
    ensures Progress(k, j, j')
  {
    hide Expected;
  }

  lemma ReceiverStep(k: Setup, j: Session, j': Session)
    requires Sync(k, j) && !Lost(j) && ReceiverMoves(k, j, j') && Sound(k)
    ensures Progress(k, j, j')
  {
    hide Sync, Progress, ReceiverMoves;
    match j.s
    case AwaitInit => ReceiverOnInit(k, j, j');
    case AwaitStart(_, _) => ReceiverOnStart(k, j, j');
    case AwaitAck(_, _, _, _) => ReceiverOnAck(k, j, j');
    case AwaitNext(_) => ReceiverOnNext(k, j, j');
    case AwaitFin(_) => ReceiverOnFin(k, j, j');
    case Sent => ReceiverOnFin(k, j, j');
    case Failed =>
  }

  // -------------------------------------------------------------- whole runs

  ghost predicate IsRun(k: Setup, run: seq<Session>) {
    run != [] && Begins(k, run[0])
    && forall t | 0 <= t < |run| - 1 :: Next(k, run[t], run[t + 1])
  }

  lemma LostForGood(k: Setup, j: Session, j': Session)
    requires Lost(j) && Next(k, j, j')
    ensures Lost(j')
  {
  }

  lemma StepKeeps(k: Setup, j: Session, j': Session)
    requires Sound(k) && InStep(k, j) && Next(k, j, j')
    ensures InStep(k, j')
  {
    hide Sync, SenderMoves, ReceiverMoves;
    if Lost(j) {
      LostForGood(k, j, j');
    } else if SenderMoves(k, j, j') {
      SenderStep(k, j, j');
    } else if ReceiverMoves(k, j, j') {
      ReceiverStep(k, j, j');
    }
  }

  lemma {:induction false} RunKeeps(k: Setup, run: seq<Session>, t: nat)
    requires Sound(k) && IsRun(k, run) && t < |run|
    ensures InStep(k, run[t])
  {
    hide Next, InStep;
    if t == 0 {
      InitHolds(k, run[0]);
    } else {
      RunKeeps(k, run, t - 1);
      assert Next(k, run[t - 1], run[t - 1 + 1]);
      StepKeeps(k, run[t - 1], run[t]);
    }
  }

  lemma InitHolds(k: Setup, j: Session)
    requires Begins(k, j)
    ensures InStep(k, j)
  {
  }

  /**
   Whatever the line damages, whoever is cancelled and in whatever order the sides run:
   when both return without an error, the destination is the old one with every file of
   the session in it, byte for byte, and nothing else changed.
   */
  lemma SafeDelivery(k: Setup, run: seq<Session>, t: nat)
    requires Sound(k) && IsRun(k, run) && t < |run| && Delivered(run[t])
    ensures run[t].r.dir == Expected(k, |k.files|) && !run[t].r.open
  {
    RunKeeps(k, run, t);
  }

  predicate LastOfName(k: Setup, i: nat) {
    i < |k.files| && forall l | i < l < |k.files| :: k.files[l].name != k.files[i].name
  }

  lemma {:induction false} ExpectedHolds(k: Setup, i: nat, m: nat)
    requires LastOfName(k, i) && i < m <= |k.files|
    ensures k.files[i].name in Expected(k, m)
            && Expected(k, m)[k.files[i].name] == Regular(k.files[i].content)
  {
    if i + 1 < m {
      ExpectedHolds(k, i, m - 1);
    }
  }

  lemma {:induction false} ExpectedElsewhere(k: Setup, name: bytes, m: nat)
    requires m <= |k.files| && forall i | 0 <= i < m :: k.files[i].name != name
    ensures name in Expected(k, m) <==> name in k.dir
    ensures name in k.dir ==> Expected(k, m)[name] == k.dir[name]
  {
    if m > 0 {
      ExpectedElsewhere(k, name, m - 1);
    }
  }

  /** The same, for one file, unless a later one of the session has its name. */
  lemma FileArrives(k: Setup, run: seq<Session>, t: nat, i: nat)
    requires Sound(k) && IsRun(k, run) && t < |run| && Delivered(run[t])
    requires LastOfName(k, i)
    ensures k.files[i].name in run[t].r.dir
            && run[t].r.dir[k.files[i].name] == Regular(k.files[i].content)
  {
    hide IsRun, Delivered;
    SafeDelivery(k, run, t);
    ExpectedHolds(k, i, |k.files|);
  }

  /** The same, for a name that no file of the session has. */
  lemma OthersUntouched(k: Setup, run: seq<Session>, t: nat, name: bytes)
    requires Sound(k) && IsRun(k, run) && t < |run| && Delivered(run[t])
    requires forall i | 0 <= i < |k.files| :: k.files[i].name != name
    ensures name in run[t].r.dir <==> name in k.dir
    ensures name in k.dir ==> run[t].r.dir[name] == k.dir[name]
  {
    hide IsRun, Delivered;
    SafeDelivery(k, run, t);
    ExpectedElsewhere(k, name, |k.files|);
  }

  // ------------------------------------------------------- runs that get there

  /** The ranking as one number. */
  function Rank(k: Setup, j: Session): nat
    requires WellFormed(k.files, j.s)
  {
    ((Level(k, j.s) * (MAX_SIZE + 1) + Left(k, j.s)) * (MAX_RETRIES + 1) + Tries(k, j.s)) * 5 + Micro(j)
  }

  lemma BelowRank(k: Setup, a: Session, b: Session)
    requires WellFormed(k.files, a.s) && WellFormed(k.files, b.s) && Below(k, a, b)
    requires Left(k, a.s) <= MAX_SIZE && Micro(a) < 5
    ensures Rank(k, a) < Rank(k, b)
  {
    hide Level, Left, Tries;
  }

  lemma FewInFlight(k: Setup, j: Session)
    requires Sync(k, j) && !Lost(j)
    ensures Left(k, j.s) <= MAX_SIZE && Micro(j) < 5
  {
    hide Idle, Partial, Comparing, Format, Carries;
  }

  /** Every move of either side brings the end nearer, until one of them is lost. */
  lemma MoveDescends(k: Setup, j: Session, j': Session)
    requires Sound(k) && Sync(k, j) && !Lost(j)
    requires SenderMoves(k, j, j') || ReceiverMoves(k, j, j')
    ensures !Lost(j') ==> Sync(k, j') && Rank(k, j') < Rank(k, j)
  {
    hide Sync, SenderMoves, ReceiverMoves, Below, Rank;
    if SenderMoves(k, j, j') {
      SenderStep(k, j, j');
    } else {
      ReceiverStep(k, j, j');
    }
    if !Lost(j') {
      FewInFlight(k, j');
      BelowRank(k, j', j);
    }
  }

  /**
   A line with bounded damage: it touches nothing but file data, and no packet more than
   twenty times in a row.
   */
  ghost predicate GentleMove(k: Setup, j: Session, j': Session) {
    || ReceiverMoves(k, j, j')
    || (SenderMoves(k, j, j')
        && (Damaged in j'.down ==> Damaged in j.down || (j'.s.AwaitAck? && j'.s.retries < MAX_RETRIES)))
  }

  /** The destination accepts every file: a good name, and nothing in the way but a prefix. */
  ghost predicate Welcome(k: Setup) {
    forall i | 0 <= i < |k.files| :: WelcomeFile(k, i)
  }

  ghost predicate WelcomeFile(k: Setup, i: nat)
    requires i < |k.files|
  {
    var f := k.files[i];
    Sendable(f) && SafeName(f.name)
    && (f.name in Expected(k, i) ==>
          Expected(k, i)[f.name].Regular? && IsPrefix(Before(k, i), f.content))
  }

  /** Nothing is damaged or refused that could not still be repeated. */
  ghost predicate Hopeful(k: Setup, j: Session) {
    Sync(k, j) && !Lost(j)
    && (Damaged in j.down ==> j.s.AwaitAck? && j.s.retries < MAX_RETRIES)
    && (j.s.AwaitAck? && j.up != [] && j.up[0].kind == ZRPOS ==> j.s.retries < MAX_RETRIES)
  }

  lemma WelcomeSound(k: Setup)
    requires Welcome(k)
    ensures Sound(k)
  {
    forall i | 0 <= i < |k.files|
      ensures NUL !in k.files[i].name
      ensures var (e, content) := (Before(k, i), k.files[i].content);
              |e| <= |content| && k.sum(e) == k.sum(content[..|e|]) ==> e == content[..|e|]
    {
      assert WelcomeFile(k, i);
    }
  }

  lemma HopefulSender(k: Setup, j: Session, j': Session)
    requires Welcome(k) && Hopeful(k, j) && GentleMove(k, j, j') && SenderMoves(k, j, j')
    ensures !Lost(j')
    ensures j'.up == [] && (Damaged in j'.down ==> j'.s.AwaitAck? && j'.s.retries < MAX_RETRIES)
  {
    hide Idle, Format, Carries;
    match j.s
    case AwaitInit =>
      assert k.files != [] ==> WelcomeFile(k, 0);
    case AwaitNext(i) =>
      assert i + 1 < |k.files| ==> WelcomeFile(k, i + 1);
    case AwaitStart(i, _) =>
      Small(j.r.position);
    case _ =>
  }

  lemma HopefulCompare(k: Setup, j: Session, j': Session)
    requires Welcome(k) && Hopeful(k, j) && ReceiverMoves(k, j, j')
    requires j.s.AwaitStart? && (j.r.phase.Meta? || j.r.phase.Resuming?)
    ensures !Lost(j')
  {
    hide Expected, Parse, Format, SafeName;
    var i := j.s.file;
    WelcomeSound(k);
    OffersParse(k, i);
    assert WelcomeFile(k, i);
  }

  lemma HopefulReceiver(k: Setup, j: Session, j': Session)
    requires Welcome(k) && Hopeful(k, j) && ReceiverMoves(k, j, j')
    ensures !Lost(j')
    ensures j'.s.AwaitAck? && j'.up != [] && j'.up[0].kind == ZRPOS ==> j'.s.retries < MAX_RETRIES
  {
    hide Expected, Format, WriteAt;
    if j.s.AwaitStart? && (j.r.phase.Meta? || j.r.phase.Resuming?) {
      HopefulCompare(k, j, j');
    } else if j.s.AwaitAck? && j.down[0].Damaged? {
      assert Damaged in j.down;
    }
  }

  lemma HopeKept(k: Setup, j: Session, j': Session)
    requires Welcome(k) && Hopeful(k, j) && GentleMove(k, j, j')
    ensures Hopeful(k, j') && Rank(k, j') < Rank(k, j)
  {
    hide Sync, SenderMoves, Rank;
    WelcomeSound(k);
    MoveDescends(k, j, j');
    if SenderMoves(k, j, j') {
      HopefulSender(k, j, j');
    } else {
      HopefulReceiver(k, j, j');
      assert forall m | m in j'.down :: m in j.down;
    }
  }

  lemma SenderCanMove(k: Setup, j: Session) returns (j': Session)
    requires WellFormed(k.files, j.s) && Active(j.s) && j.up != []
    ensures GentleMove(k, j, j')
  {
    hide Sending.Step;
    var t := Sending.Step(k.files, k.sum, j.s, j.up[0]);
    NothingBroken(k, j.s, j.up[0]);
    j' := Session(t.state, j.r, j.down + t.out, j.up[1..]);
    assert j'.down[|j.down|..] == t.out;
    assert SenderMoves(k, j, j');
  }

  lemma NothingBroken(k: Setup, s: State, h: Head)
    requires WellFormed(k.files, s) && Active(s)
    ensures Damaged !in Sending.Step(k.files, k.sum, s, h).out
  {
    hide Format;
  }

  lemma ReceiverCanMove(k: Setup, j: Session) returns (j': Session)
    requires j.down != [] && Fits(j.r.phase, Arrives(j.down[0]))
    ensures GentleMove(k, j, j')
  {
    var t := Receiving.Step(k.sum, j.r, Arrives(j.down[0]));
    j' := Session(j.s, t.state, j.down[1..], j.up + t.out);
    assert ReceiverMoves(k, j, j');
  }

  lemma SomebodyWaits(k: Setup, j: Session)
    requires Sync(k, j) && !Lost(j) && !Delivered(j)
    ensures WellFormed(k.files, j.s)
    ensures if j.up != [] then Active(j.s) else j.down != [] && Fits(j.r.phase, Arrives(j.down[0]))
  {
    hide Idle, Partial, Format;
  }

  /** Nobody waits for ever: until both have returned, one of them can move. */
  lemma NotStuck(k: Setup, j: Session) returns (j': Session)
    requires Sync(k, j) && !Lost(j) && !Delivered(j)
    ensures GentleMove(k, j, j')
  {
    hide *;
    SomebodyWaits(k, j);
    if j.up != [] {
      j' := SenderCanMove(k, j);
    } else {
      j' := ReceiverCanMove(k, j);
    }
  }

  ghost predicate CanGoOn(k: Setup, j: Session) {
    exists j' :: GentleMove(k, j, j')
  }

  ghost predicate IsGentleRun(k: Setup, run: seq<Session>) {
    run != [] && Begins(k, run[0])
    && forall t | 0 <= t < |run| - 1 :: GentleMove(k, run[t], run[t + 1])
  }

  lemma {:induction false} GentleRunKeeps(k: Setup, run: seq<Session>, t: nat)
    requires Welcome(k) && IsGentleRun(k, run) && t < |run|
    ensures Hopeful(k, run[t]) && WellFormed(k.files, run[0].s)
    ensures Rank(k, run[t]) + t <= Rank(k, run[0])
  {
    hide GentleMove, Rank;
    if t > 0 {
      GentleRunKeeps(k, run, t - 1);
      assert GentleMove(k, run[t - 1], run[t - 1 + 1]);
      HopeKept(k, run[t - 1], run[t]);
    }
  }

  /**
   On a line with bounded damage, and a destination that accepts the files, a session
   cannot go on for ever, and where it cannot go on both sides have returned without an
   error and every file is delivered.
   */
  lemma CertainDelivery(k: Setup, run: seq<Session>)
    requires Welcome(k) && IsGentleRun(k, run)
    ensures WellFormed(k.files, run[0].s) && |run| <= Rank(k, run[0]) + 1
    ensures CanGoOn(k, run[|run| - 1])
            || (Delivered(run[|run| - 1]) && run[|run| - 1].r.dir == Expected(k, |k.files|))
  {
    hide GentleMove, Expected, Rank;
    var last := run[|run| - 1];
    GentleRunKeeps(k, run, |run| - 1);
    if !Delivered(last) {
      var j' := NotStuck(k, last);
    }
  }

  /** The twenty-first damaged copy of one packet in a row is one too many, and no earlier one. */
  lemma RetryLimit(k: Setup, j: Session, j': Session)
    requires Sync(k, j) && !Lost(j) && SenderMoves(k, j, j')
    requires j.s.AwaitAck? && j.up[0].kind == ZRPOS
    ensures Lost(j') <==> j.s.retries == MAX_RETRIES
    ensures !Lost(j') ==> j'.s.AwaitAck? && j'.s.file == j.s.file && j'.s.pos == j.s.pos
                          && j'.s.retries == j.s.retries + 1
  {
    hide Partial, Format;
  }

  // ------------------------------------------------------- damage in a row

  /** A chunk has just been written, for the first time or again. */
  predicate Written(k: Setup, j: Session) { Sync(k, j) && !Lost(j) && j.s.AwaitAck? && |j.down| == 2 }

  /** The sender has gone on from the chunk it had written in `a`. */
  predicate GoneOn(k: Setup, a: Session, d: Session) {
    a.s.AwaitAck? && WellFormed(k.files, a.s)
    && d.s == SendChunk(k.files, a.s.file, a.s.pos + a.s.n, 0).state
  }

  /** The same chunk is on its way once more. */
  predicate WrittenAgain(k: Setup, a: Session, d: Session) {
    Written(k, a) && Written(k, d)
    && d.s.file == a.s.file && d.s.pos == a.s.pos && d.s.retries == a.s.retries + 1
  }

  predicate Hit(j: Session) { |j.down| == 2 && j.down[1] == Damaged }

  /** One of the sides moves, and nobody is cancelled. */
  ghost predicate Moves(k: Setup, j: Session, j': Session) { SenderMoves(k, j, j') || ReceiverMoves(k, j, j') }

  lemma HeaderIsRead(k: Setup, a: Session, b: Session)
    requires Sound(k) && Written(k, a) && Moves(k, a, b)
    ensures Sync(k, b) && !Lost(b) && b.s == a.s && b.down == a.down[1..]
  {
    hide Format, Expected;
    hide Sending.Step;
    ReceiverOnAck(k, a, b);
  }

  lemma CopyIsRead(k: Setup, b: Session, c: Session)
    requires Sound(k) && Sync(k, b) && !Lost(b) && b.s.AwaitAck? && |b.down| == 1 && Moves(k, b, c)
    ensures Sync(k, c) && !Lost(c) && c.s == b.s && c.down == []
    ensures c.up == [if b.down[0].Damaged? then Head(ZRPOS, b.s.pos) else Head(ZACK, b.s.pos + b.s.n)]
  {
    hide Format, Expected, WriteAt;
    hide Sending.Step;
    ReceiverOnAck(k, b, c);
    Small(b.s.pos);
    Small(b.s.pos + b.s.n);
  }

  lemma AnswerIsRead(k: Setup, c: Session, d: Session)
    requires Sound(k) && Sync(k, c) && !Lost(c) && c.s.AwaitAck? && c.down == [] && Moves(k, c, d)
    ensures WellFormed(k.files, c.s)
    ensures c.up[0].kind == ZACK ==> d.s == SendChunk(k.files, c.s.file, c.s.pos + c.s.n, 0).state
    ensures c.up[0].kind == ZRPOS ==>
              if c.s.retries == MAX_RETRIES then d.s.Failed? && d.down == []
              else Written(k, d) && d.s.file == c.s.file && d.s.pos == c.s.pos && d.s.retries == c.s.retries + 1
  {
    hide Partial, Format;
    SenderOnAck(k, c, d);
  }

  /** What becomes of one copy of a chunk: it is answered, and the answer is acted on. */
  lemma CopyRound(k: Setup, a: Session, b: Session, c: Session, d: Session)
    requires Sound(k) && Written(k, a) && Moves(k, a, b) && Moves(k, b, c) && Moves(k, c, d)
    ensures !Hit(a) ==> GoneOn(k, a, d)
    ensures Hit(a) ==> if a.s.retries == MAX_RETRIES then d.s.Failed? && d.down == [] else WrittenAgain(k, a, d)
  {
    hide Sync, Moves;
    HeaderIsRead(k, a, b);
    assert b.down[0] == a.down[1];
    CopyIsRead(k, b, c);
    AnswerIsRead(k, c, d);
  }

  ghost predicate IsQuietRun(k: Setup, run: seq<Session>) {
    run != [] && Begins(k, run[0])
    && forall t | 0 <= t < |run| - 1 :: Moves(k, run[t], run[t + 1])
  }

  /** The copies of the chunk first written at `t`, up to the `m`-th, are all damaged. */
  predicate AllHit(run: seq<Session>, t: nat, m: nat) {
    t + 3 * m < |run| && forall q | 0 <= q < m :: Hit(run[t + 3 * q])
  }

  /** The three moves of one copy. */
  lemma RunRound(k: Setup, run: seq<Session>, t: nat)
    requires Sound(k) && IsQuietRun(k, run) && t + 3 < |run| && Written(k, run[t])
    ensures var (a, d) := (run[t], run[t + 3]);
            && (!Hit(a) ==> GoneOn(k, a, d))
            && (Hit(a) ==> if a.s.retries == MAX_RETRIES then d.s.Failed? && d.down == [] else WrittenAgain(k, a, d))
  {
    hide Sync, Moves, Begins;
    assert Moves(k, run[t], run[t + 1]) && Moves(k, run[t + 1], run[t + 1 + 1]) && Moves(k, run[t + 2], run[t + 2 + 1]);
    CopyRound(k, run[t], run[t + 1], run[t + 2], run[t + 3]);
  }

  lemma {:induction false} HitsCount(k: Setup, run: seq<Session>, t: nat, m: nat)
    requires Sound(k) && IsQuietRun(k, run) && AllHit(run, t, m)
    requires Written(k, run[t]) && run[t].s.retries == 0
    ensures m <= MAX_RETRIES + 1
    ensures var (a, d) := (run[t], run[t + 3 * m]);
            if m == MAX_RETRIES + 1 then d.s.Failed? && d.down == []
            else Written(k, d) && d.s.file == a.s.file && d.s.pos == a.s.pos && d.s.retries == m
  {
    hide Sync, Moves, Begins, IsQuietRun;
    if m > 0 {
      HitsCount(k, run, t, m - 1);
      var last := t + 3 * (m - 1);
      assert Hit(run[last]);
      RunRound(k, run, last);
    }
  }

  /**
   In every run that nobody cancels: a chunk that is damaged in every copy loses the session with
   the twenty-first in a row and not before, and the first copy that comes through takes the
   sender on behind the chunk.
   */
  lemma LostAfterTwentyOne(k: Setup, run: seq<Session>, t: nat, m: nat)
    requires Sound(k) && IsQuietRun(k, run) && AllHit(run, t, m)
    requires Written(k, run[t]) && run[t].s.retries == 0
    ensures Lost(run[t + 3 * m]) <==> m > MAX_RETRIES
    ensures !Lost(run[t + 3 * m]) ==> Written(k, run[t + 3 * m]) && run[t + 3 * m].s.pos == run[t].s.pos
    ensures m <= MAX_RETRIES && t + 3 * m + 3 < |run| && !Hit(run[t + 3 * m]) ==>
              GoneOn(k, run[t + 3 * m], run[t + 3 * m + 3])
  {
    hide Sync, Moves, Begins, IsQuietRun, GoneOn;
    HitsCount(k, run, t, m);
    if m <= MAX_RETRIES && t + 3 * m + 3 < |run| {
      RunRound(k, run, t + 3 * m);
    }
  }
}
