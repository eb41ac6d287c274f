/**
 Tasks, their runs, the user's decisions and the execution ledger as one state machine. The
 agent is an adversary: within a run it may ask for any request at any time.
 */
module World {
  import L = Ledger
  import opened Policy
  import opened StoreObject
  import opened Verification

  type Request = L.Request

  /** `task` is the copy taken when the run began; its tools never look at a newer one. */
  datatype Run = Run(task: Task, pending: bool)

  /** Why the loop of a run came to its end. */
  datatype Cause = Clean | Cancelled | BlockedTurn | Erred | Exited

  /**
   A call of the user interface between reading and writing. Nothing keeps other calls, or the
   runs, from writing in between.
   */
  datatype Errand =
    | Looking(id: string)                                     // has seen no run of the task
    | Resuming(task: Task, settled: bool)                     // has read the task, and perhaps its results
    | Submitting(task: Task)
    | Cancelling(task: Task)
    | Weighing(request: Request, accept: bool, approval: Approval)   // has read the approval
    | Deciding(request: Request, accept: bool, approval: Approval)   // has compared it with the task
    | Attaching(task: Task, path: string)

  /** The one start that holds the lock of the runs, with the task as it has read it. */
  datatype Starter = Free | Starting(task: Task)

  datatype World = World(
    ledger: L.Ledger,
    tasks: map<string, Task>,
    hosts: map<string, Host>,
    approvals: map<Request, Approval>,
    attached: map<(string, string), nat>,
    verified: map<(string, string), Evidence>,
    runs: map<string, Run>,
    starter: Starter,
    errands: map<nat, Errand>,
    calls: map<nat, Task>,
    grants: set<nat>,
    now: int)

  const BEGINNING := World(L.EMPTY, map[], map[], map[], map[], map[], map[], Free, map[], map[], {}, 0)

  const EIGHT_HOURS := 28800

  /** What the calls of the user interface do, one read or write of the store at a time. */
  datatype UserStep =
    | LoadStart(id: string)
    | StoreStart
    | DropStart
    | LoadResume(errand: nat, id: string)
    | CheckResume(errand: nat)
    | StoreResume(errand: nat, grant: nat)
    | Look(errand: nat, id: string)
    | LoadSubmit(errand: nat)
    | StoreSubmit(errand: nat)
    | LoadCancel(errand: nat)
    | StoreCancel(errand: nat)
    | LoadAttach(errand: nat, id: string, path: string)
    | StoreAttach(errand: nat)
    | Weigh(errand: nat, request: Request, accept: bool)
    | CheckDecision(errand: nat)
    | StoreDecision(errand: nat)
    | Forget(errand: nat)

  datatype Action =
    | Tick(now: int)
    | SetHost(host: Host)
    | RemoveHost(name: string)
    | Create(task: Task)
    | User(ui: UserStep)
    | AskUser(id: string, request: Request)
    | Tool(call: nat, id: string, request: Request)
    | Guard(call: nat)
    | Do(step: L.Action)
    | Verify(id: string, operator: bool, execution: nat, expected: string)
    | EndRun(id: string, cause: Cause)
    | Crash
    | Restart

  // ---------------------------------------------------------------- authority

  /** What the copy of the task says about a request at this moment. */
  function Judgement(w: World, t: Task, r: Request): Verdict {
    if L.IsLocal(r.operation) then EvaluateLocal(t, r, w.now)
    else if r.hostId in w.hosts then Evaluate(t, w.hosts[r.hostId], r, w.now)
    else Denied
  }

  predicate IsAttached(w: World, t: Task, r: Request) {
    L.IsLocal(r.operation) && (t.id, r.localPath) in w.attached && w.attached[(t.id, r.localPath)] == t.grant.id
  }

  predicate IsAccepted(w: World, t: Task, r: Request) {
    r in w.approvals && ApprovedFor(w.approvals[r], t, r)
  }

  predicate IsDeclined(w: World, t: Task, r: Request) {
    r in w.approvals && w.approvals[r].decided && w.approvals[r].grantId == t.grant.id && !w.approvals[r].approved
  }

  /** A change is not even considered while an outcome on some host is in doubt. */
  predicate MayChange(w: World, t: Task, r: Request) {
    !L.IsLocal(r.operation) && L.Mutates(r.operation) ==> NoneOpen(ResultsOf(w.ledger.rows, t.id))
  }

  predicate Cleared(w: World, t: Task, r: Request) {
    MayChange(w, t, r)
    && match Judgement(w, t, r)
       case Allowed => true
       case Ask => IsAttached(w, t, r) || IsAccepted(w, t, r)
       case Denied => false
  }

  predicate NeedsUser(w: World, t: Task, r: Request) {
    MayChange(w, t, r) && Judgement(w, t, r).Ask?
    && !IsAttached(w, t, r) && !IsAccepted(w, t, r) && !IsDeclined(w, t, r)
  }

  // ------------------------------------------------------------------- status

  predicate Busy(w: World, id: string) {
    exists c :: c in w.ledger.calls && w.ledger.calls[c].request.taskId == id
  }

  function Ended(w: World, id: string, cause: Cause): TaskStatus
    requires id in w.runs
  {
    var results := ResultsOf(w.ledger.rows, id);
    if w.runs[id].pending then AwaitingApproval
    else if cause.Cancelled? then Interrupted
    else if cause.BlockedTurn? then Blocked
    else if cause.Erred? then HasFailed
    else if cause.Exited? then Interrupted
    else if w.runs[id].task.conversation && Remote(results) == [] then IsReady
    else if AllVerified(id, results, w.verified) then Completed
    else NeedsVerification
  }

  function Renewed(w: World, t: Task, g: nat): Task {
    var ids := set i | 0 <= i < |t.grant.hostIds| && t.grant.hostIds[i] in w.hosts :: t.grant.hostIds[i];
    t.(status := if t.current then t.status else Interrupted,
       current := true,
       grant := t.grant.(id := g, expiresAt := w.now + EIGHT_HOURS,
                         identities := t.grant.identities + map h | h in ids :: w.hosts[h]))
  }

  // -------------------------------------------------------------------- steps

  /** The steps of a call that need no authority of their own. */
  predicate Plain(a: L.Action) {
    !a.Begin? && !a.Authorise? && !a.Crash? && !a.Restart?
  }

  /** All steps but those of a start belong to an errand. */
  predicate OnErrand(u: UserStep) { !u.LoadStart? && !u.StoreStart? && !u.DropStart? }

  predicate CanServe(w: World, u: UserStep) {
    match u
    case LoadStart(id) =>
      && w.starter.Free? && id in w.tasks && id !in w.runs
      && w.tasks[id].current && w.now < w.tasks[id].grant.expiresAt
    case StoreStart => w.starter.Starting?
    case DropStart => w.starter.Starting?
    case LoadResume(e, id) => e !in w.errands && id in w.tasks
    case CheckResume(e) =>
      && e in w.errands && w.errands[e].Resuming?
      && forall r | r in ResultsOf(w.ledger.rows, w.errands[e].task.id) :: !Open(r)
    case StoreResume(e, g) =>
      && e in w.errands && w.errands[e].Resuming? && w.errands[e].settled && g !in w.grants
      && forall h | h in w.errands[e].task.grant.hostIds :: h in w.hosts
    case Look(e, id) => e !in w.errands && w.starter.Free? && id !in w.runs
    case LoadSubmit(e) =>
      && e in w.errands && w.errands[e].Looking? && w.errands[e].id in w.tasks
      && var status := w.tasks[w.errands[e].id].status; status.AwaitingApproval? || status.Interrupted?
    case StoreSubmit(e) => e in w.errands && w.errands[e].Submitting?
    case LoadCancel(e) =>
      && e in w.errands && w.errands[e].Looking? && w.errands[e].id in w.tasks
      && var status := w.tasks[w.errands[e].id].status; status.AwaitingApproval? || status.IsReady?
    case StoreCancel(e) => e in w.errands && w.errands[e].Cancelling?
    case LoadAttach(e, id, _) =>
      e !in w.errands && id in w.tasks && w.now < w.tasks[id].grant.expiresAt
    case StoreAttach(e) => e in w.errands && w.errands[e].Attaching?
    case Weigh(e, r, _) => e !in w.errands && r in w.approvals
    case CheckDecision(e) =>
      && e in w.errands && w.errands[e].Weighing?
      && var id := w.errands[e].approval.request.taskId;
         && id in w.tasks && w.tasks[id].current && w.errands[e].approval.grantId == w.tasks[id].grant.id
         && w.now < w.tasks[id].grant.expiresAt
    case StoreDecision(e) => e in w.errands && w.errands[e].Deciding?
    case Forget(e) => e in w.errands
  }

  /** A write replaces the whole record by the copy that was read. */
  function Serve(w: World, u: UserStep): World
    requires CanServe(w, u)
  {
    match u
    case LoadStart(id) => w.(starter := Starting(w.tasks[id]))
    case StoreStart =>
      var t := w.starter.task.(status := IsRunning);
      w.(tasks := w.tasks[t.id := t], runs := w.runs[t.id := Run(t, false)], starter := Free)
    case DropStart => w.(starter := Free)
    case LoadResume(e, id) => w.(errands := w.errands[e := Resuming(w.tasks[id], false)])
    case CheckResume(e) => w.(errands := w.errands[e := w.errands[e].(settled := true)])
    case StoreResume(e, g) =>
      var t := w.errands[e].task;
      w.(tasks := w.tasks[t.id := Renewed(w, t, g)], grants := w.grants + {g}, errands := w.errands - {e})
    case Look(e, id) => w.(errands := w.errands[e := Looking(id)])
    case LoadSubmit(e) => w.(errands := w.errands[e := Submitting(w.tasks[w.errands[e].id])])
    case StoreSubmit(e) =>
      var t := w.errands[e].task;
      w.(tasks := w.tasks[t.id := t], errands := w.errands - {e})
    case LoadCancel(e) => w.(errands := w.errands[e := Cancelling(w.tasks[w.errands[e].id])])
    case StoreCancel(e) =>
      var t := w.errands[e].task;
      w.(tasks := w.tasks[t.id := t.(status := Interrupted, grant := t.grant.(expiresAt := NEVER))],
         errands := w.errands - {e})
    case LoadAttach(e, id, path) => w.(errands := w.errands[e := Attaching(w.tasks[id], path)])
    case StoreAttach(e) =>
      var x := w.errands[e];
      w.(attached := w.attached[(x.task.id, x.path) := x.task.grant.id], errands := w.errands - {e})
    case Weigh(e, r, accept) => w.(errands := w.errands[e := Weighing(r, accept, w.approvals[r])])
    case CheckDecision(e) =>
      var x := w.errands[e];
      w.(errands := w.errands[e := Deciding(x.request, x.accept, x.approval)])
    case StoreDecision(e) =>
      var x := w.errands[e];
      w.(approvals := w.approvals[x.request := x.approval.(approved := x.accept, decided := true)],
         errands := w.errands - {e})
    case Forget(e) => w.(errands := w.errands - {e})
  }

  predicate Enabled(w: World, a: Action) {
    match a
    case Tick(now) => now >= 0
    case SetHost(_) => true
    case RemoveHost(_) => true
    case Create(t) => w.ledger.up && t.id !in w.tasks && t.status.IsReady? && t.grant.id !in w.grants
    case User(u) => w.ledger.up && CanServe(w, u)
    case AskUser(id, r) => w.ledger.up && id in w.runs && NeedsUser(w, w.runs[id].task, r)
    case Tool(c, id, r) => id in w.runs && Cleared(w, w.runs[id].task, r) && L.Enabled(w.ledger, L.Begin(c, r))
    case Guard(c) =>
      L.Enabled(w.ledger, L.Authorise(c)) && c in w.calls && !Judgement(w, w.calls[c], w.ledger.calls[c].request).Denied?
    case Do(step) => Plain(step) && L.Enabled(w.ledger, step)
    case Verify(id, operator, execution, expected) =>
      && w.ledger.up && id in w.runs && operator && expected != ""
      && exists r :: r in ResultsOf(w.ledger.rows, id) && r.id == execution
                     && Acceptable(w.runs[id].task.grant.hostIds, ResultsOf(w.ledger.rows, id), r, expected)
    case EndRun(id, _) => w.ledger.up && w.starter.Free? && id in w.runs && !Busy(w, id)
    case Crash => L.Enabled(w.ledger, L.Crash)
    case Restart => L.Enabled(w.ledger, L.Restart)
  }

  /** The host of an execution that belongs to the task. */
  ghost function HostOf(w: World, id: string, execution: nat): string
    requires exists r :: r in ResultsOf(w.ledger.rows, id) && r.id == execution
  {
    var r :| r in ResultsOf(w.ledger.rows, id) && r.id == execution;
    r.request.hostId
  }

  ghost function Apply(w: World, a: Action): World
    requires Enabled(w, a)
  {
    match a
    case Tick(now) => w.(now := now)
    case SetHost(h) => w.(hosts := w.hosts[h.id := h])
    case RemoveHost(h) => w.(hosts := w.hosts - {h})
    case Create(t) => w.(tasks := w.tasks[t.id := t], grants := w.grants + {t.grant.id})
    case User(u) => Serve(w, u)
    case AskUser(id, r) =>
      w.(approvals := w.approvals[r := Approval(r, w.runs[id].task.grant.id, false, false)],
         runs := w.runs[id := w.runs[id].(pending := true)])
    case Tool(c, id, r) =>
      w.(ledger := L.Apply(w.ledger, L.Begin(c, r)), calls := w.calls[c := w.runs[id].task])
    case Guard(c) => w.(ledger := L.Apply(w.ledger, L.Authorise(c)))
    case Do(step) => w.(ledger := L.Apply(w.ledger, step))
    case Verify(id, _, execution, expected) =>
      w.(verified := w.verified[(id, HostOf(w, id, execution)) := Evidence(execution, expected)])
    case EndRun(id, cause) =>
      w.(tasks := w.tasks[id := w.runs[id].task.(status := Ended(w, id, cause))], runs := w.runs - {id})
    case Crash =>
      w.(ledger := L.Apply(w.ledger, L.Crash), runs := map[], starter := Free, errands := map[], calls := map[])
    case Restart =>
      w.(ledger := L.Apply(w.ledger, L.Restart), tasks := map id | id in w.tasks :: RecoveredTask(w.tasks[id]))
  }

  ghost function Step(w: World, a: Action): World { if Enabled(w, a) then Apply(w, a) else w }

  /** The world after the actions of a history; an action that is not enabled does nothing. */
  ghost function After(actions: seq<Action>): World {
    if actions == [] then BEGINNING else Step(After(actions[..|actions| - 1]), actions[|actions| - 1])
  }

  /** The world that `more` leads to. */
  ghost function Onwards(w: World, more: seq<Action>): World {
    if more == [] then w else Step(Onwards(w, more[..|more| - 1]), more[|more| - 1])
  }

  /** Action `i` of a history could be taken and was. */
  ghost predicate Taken(actions: seq<Action>, i: nat, a: Action) {
    i < |actions| && actions[i] == a && Enabled(After(actions[..i]), a)
  }
}
