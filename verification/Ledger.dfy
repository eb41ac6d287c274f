/**
 The execution ledger: rows of intended and settled executions, and the calls that work on
 them side by side, through crashes and recovery.
 */
module Ledger {

  /** Everything a tool call asks for. Its digest is injective, so the request stands for it. */
  datatype Request = Request(
    taskId: string, callId: string, runId: string, agentName: string, hostId: string,
    operation: string, resource: string, command: string, content: string, expectedHash: string,
    timeoutSeconds: int, localPath: string, sourceHash: string, uploadMode: string, readOffset: int)

  datatype Status = Running | Succeeded | Failed | Unknown

  datatype Result = Result(
    id: nat, request: Request, status: Status, exitCode: int, output: string, artifact: bool, startedAt: int)

  /** One row: the digest is written once, the payload may be replaced. */
  datatype Row = Row(digest: Request, payload: Result)

  predicate Mutates(op: string) {
    op == "upload_local" || op == "terminal_write" || op == "file_write"
    || op == "service_restart" || op == "package_install" || op == "shell"
  }

  predicate IsLocal(op: string) {
    op == "local_stat" || op == "local_list" || op == "local_read"
  }

  /** An operation whose failure leaves no doubt about its effect. */
  predicate Harmless(op: string) {
    IsLocal(op) || op == "file_hash" || op == "file_read" || op == "terminal_read" || op == "terminal_connect"
  }

  predicate Identified(r: Request) {
    r.taskId != "" && r.callId != "" && (r.hostId != "" || IsLocal(r.operation))
  }

  // -------------------------------------------------------------- statements

  predicate SameCall(a: Request, b: Request) { a.taskId == b.taskId && a.callId == b.callId }

  /** Position of the row of a call, or the number of rows. */
  function Find(rows: seq<Row>, r: Request): (i: nat)
    ensures i <= |rows|
    ensures i < |rows| ==> SameCall(rows[i].digest, r)
    ensures forall j | 0 <= j < i :: !SameCall(rows[j].digest, r)
  {
    if rows == [] || SameCall(rows[0].digest, r) then 0 else 1 + Find(rows[1..], r)
  }

  /** INSERT ... ON CONFLICT(task_id, call_id) DO NOTHING */
  function InsertRow(rows: seq<Row>, r: Result): seq<Row> {
    if Find(rows, r.request) < |rows| then rows else rows + [Row(r.request, r)]
  }

  function Intent(id: nat, r: Request, now: int): Result {
    Result(id, r, Running, -1, "", false, now)
  }

  /** UPDATE ... SET payload WHERE id */
  function FinishRow(rows: seq<Row>, r: Result): (rows': seq<Row>)
    ensures |rows'| == |rows|
    ensures forall i | 0 <= i < |rows| ::
              rows'[i] == if rows[i].payload.id == r.id then rows[i].(payload := r) else rows[i]
  {
    seq(|rows|, i requires 0 <= i < |rows| =>
      if rows[i].payload.id == r.id then rows[i].(payload := r) else rows[i])
  }

  /** The status an execution ends with. */
  function FinalStatus(op: string, failed: bool, exitCode: int): Status {
    if !failed then Succeeded else if exitCode < 0 && !Harmless(op) then Unknown else Failed
  }

  // ------------------------------------------------------------------- calls

  datatype Phase =
    | Waiting      // for the lock of the host
    | Entered      // authority not yet checked
    | Authorised   // nothing claimed yet
    | Inserted     // claim written, not yet read back
    | Claimed      // the row is this call's own
    | Saved        // the row names its artifact
    | Dispatched   // the remote side may be acting
    | Leaving      // nothing left to do but give the lock back

  datatype Call = Call(request: Request, phase: Phase, result: Result)

  /**
   `log` lists the rows whose requests were dispatched, and `issued` the identifiers ever
   drawn; both are history. `up` is false from a crash until recovery is complete.
   */
  datatype Ledger = Ledger(
    up: bool, rows: seq<Row>, calls: map<nat, Call>, locks: map<string, nat>, issued: set<nat>, log: seq<nat>)

  const EMPTY: Ledger := Ledger(false, [], map[], map[], {}, [])

  datatype Action =
    | Begin(c: nat, request: Request)
    | Acquire(c: nat)
    | Authorise(c: nat)
    | Insert(c: nat, id: nat, now: int)
    | Select(c: nat)
    | Save(c: nat)
    | NoArtifact(c: nat)
    | Dispatch(c: nat)
    | Settle(c: nat, failed: bool, exitCode: int, output: string)
    | Abandon(c: nat)
    | Release(c: nat)
    | Crash
    | RecoverRow(i: nat)
    | Restart

  predicate InPhase(s: Ledger, c: nat, p: Phase) { s.up && c in s.calls && s.calls[c].phase == p }

  predicate Enabled(s: Ledger, a: Action) {
    match a
    case Begin(c, r) => s.up && c !in s.calls && Identified(r)
    case Acquire(c) => InPhase(s, c, Waiting) && s.calls[c].request.hostId !in s.locks
    case Authorise(c) => InPhase(s, c, Entered)
    case Insert(c, id, _) => InPhase(s, c, Authorised) && id !in s.issued
    case Select(c) => InPhase(s, c, Inserted)
    case Save(c) => InPhase(s, c, Claimed)
    case NoArtifact(c) => InPhase(s, c, Claimed)
    case Dispatch(c) => InPhase(s, c, Saved)
    case Settle(c, _, _, _) => InPhase(s, c, Dispatched)
    case Abandon(c) => s.up && c in s.calls && !s.calls[c].phase.Leaving?
    case Release(c) => InPhase(s, c, Leaving)
    case Crash => s.up
    case RecoverRow(i) => !s.up && i < |s.rows| && s.rows[i].payload.status.Running?
    case Restart => !s.up && forall i | 0 <= i < |s.rows| :: !s.rows[i].payload.status.Running?
  }

  function Move(s: Ledger, c: nat, p: Phase): Ledger
    requires c in s.calls
  {
    s.(calls := s.calls[c := s.calls[c].(phase := p)])
  }

  /** Replace the result a call carries, and the row it belongs to. */
  function Record(s: Ledger, c: nat, r: Result, p: Phase): Ledger
    requires c in s.calls
  {
    s.(rows := FinishRow(s.rows, r), calls := s.calls[c := s.calls[c].(phase := p, result := r)])
  }

  function Apply(s: Ledger, a: Action): Ledger
    requires Enabled(s, a)
  {
    match a
    case Begin(c, r) =>
      s.(calls := s.calls[c := Call(r, if Mutates(r.operation) then Waiting else Entered, Intent(0, r, 0))])
    case Acquire(c) => Move(s, c, Entered).(locks := s.locks[s.calls[c].request.hostId := c])
    case Authorise(c) => Move(s, c, Authorised)
    case Insert(c, id, now) =>
      var r := Intent(id, s.calls[c].request, now);
      s.(rows := InsertRow(s.rows, r), issued := s.issued + {id},
         calls := s.calls[c := s.calls[c].(phase := Inserted, result := r)])
    case Select(c) =>
      var call := s.calls[c];
      var i := Find(s.rows, call.request);
      if i < |s.rows| && s.rows[i].digest == call.request && s.rows[i].payload.id == call.result.id
      then Move(s, c, Claimed)
      else Move(s, c, Leaving)
    case Save(c) => Record(s, c, s.calls[c].result.(artifact := true), Saved)
    case NoArtifact(c) => Record(s, c, s.calls[c].result.(status := Failed), Leaving)
    case Dispatch(c) => Move(s, c, Dispatched).(log := s.log + [s.calls[c].result.id])
    case Settle(c, failed, exitCode, output) =>
      var status := FinalStatus(s.calls[c].request.operation, failed, exitCode);
      Record(s, c, s.calls[c].result.(status := status, exitCode := exitCode, output := output), Leaving)
    case Abandon(c) =>
      if s.calls[c].phase.Waiting? then s.(calls := s.calls - {c}) else Move(s, c, Leaving)
    case Release(c) =>
      s.(calls := s.calls - {c}, locks := map h | h in s.locks && s.locks[h] != c :: s.locks[h])
    case Crash => s.(up := false, calls := map[], locks := map[])
    case RecoverRow(i) => s.(rows := FinishRow(s.rows, s.rows[i].payload.(status := Unknown)))
    case Restart => s.(up := true)
  }

  // -------------------------------------------------------------- invariants

  ghost predicate HasRow(rows: seq<Row>, id: nat) {
    exists i :: 0 <= i < |rows| && rows[i].payload.id == id
  }

  /** No two rows have an identifier or a call in common. */
  ghost predicate RowsOk(rows: seq<Row>, issued: set<nat>) {
    && (forall i, j | 0 <= i < j < |rows| ::
          rows[i].payload.id != rows[j].payload.id && !SameCall(rows[i].digest, rows[j].digest))
    && (forall i | 0 <= i < |rows| ::
          rows[i].payload.id in issued && rows[i].payload.request == rows[i].digest)
  }

  /** No row is dispatched twice. */
  ghost predicate LogOk(rows: seq<Row>, issued: set<nat>, log: seq<nat>) {
    && (forall i, j | 0 <= i < j < |log| :: log[i] != log[j])
    && (forall i | 0 <= i < |log| :: log[i] in issued && HasRow(rows, log[i]))
  }

  /** The phases in which a call is the only one that may touch its row. */
  predicate Owns(p: Phase) { p.Claimed? || p.Saved? || p.Dispatched? }

  /** The phases in which a call has drawn an identifier. */
  predicate Drew(p: Phase) { p.Inserted? || Owns(p) }

  /** The row with the identifier of `r`, if there is one, is still as `r` says. */
  ghost predicate Intact(rows: seq<Row>, r: Result) {
    forall i | 0 <= i < |rows| && rows[i].payload.id == r.id :: rows[i].payload == r
  }

  ghost predicate CallOk(rows: seq<Row>, issued: set<nat>, log: seq<nat>, c: Call) {
    Drew(c.phase) ==>
      && c.result.id in issued && c.result.request == c.request && c.result.status.Running?
      && Intact(rows, c.result)
      && (Owns(c.phase) ==> HasRow(rows, c.result.id))
      && (!c.phase.Dispatched? ==> c.result.id !in log)
  }

  ghost predicate CallsOk(s: Ledger) {
    && (forall c | c in s.calls :: CallOk(s.rows, s.issued, s.log, s.calls[c]))
    && (forall c, d | c in s.calls && d in s.calls && c != d
                      && Drew(s.calls[c].phase) && Drew(s.calls[d].phase) ::
          s.calls[c].result.id != s.calls[d].result.id)
  }

  /** A mutating call past the lock is the one the lock names. */
  predicate Holds(locks: map<string, nat>, c: nat, call: Call) {
    !call.phase.Waiting? && Mutates(call.request.operation) ==>
      call.request.hostId in locks && locks[call.request.hostId] == c
  }

  ghost predicate LocksOk(s: Ledger) {
    && (forall c | c in s.calls :: Holds(s.locks, c, s.calls[c]))
    && (forall h | h in s.locks :: s.locks[h] in s.calls && !s.calls[s.locks[h]].phase.Waiting?)
  }

  ghost predicate Inv(s: Ledger) {
    && (!s.up ==> s.calls == map[])
    && RowsOk(s.rows, s.issued) && LogOk(s.rows, s.issued, s.log) && CallsOk(s) && LocksOk(s)
  }
}
