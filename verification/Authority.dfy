/** By what right a request is dispatched. */
module Authority {
  import L = Ledger
  import LedgerProofs
  import Paths
  import opened Policy
  import opened StoreObject
  import opened World

  // --------------------------------------------------------- names and grants

  /** A copy of a task there is, with a grant that was issued. */
  predicate Known(ids: set<string>, grants: set<nat>, t: Task) { t.id in ids && t.grant.id in grants }

  predicate TasksOk(grants: set<nat>, tasks: map<string, Task>) {
    forall id | id in tasks :: tasks[id].id == id && tasks[id].grant.id in grants
  }

  predicate RunsOk(ids: set<string>, grants: set<nat>, runs: map<string, Run>) {
    forall id | id in runs :: runs[id].task.id == id && Known(ids, grants, runs[id].task)
  }

  predicate StarterOk(ids: set<string>, grants: set<nat>, s: Starter) { s.Starting? ==> Known(ids, grants, s.task) }

  predicate ErrandOk(ids: set<string>, grants: set<nat>, x: Errand) {
    match x
    case Looking(_) => true
    case Weighing(r, _, a) => a.request == r && a.grantId in grants
    case Deciding(r, _, a) => a.request == r && a.grantId in grants
    case _ => Known(ids, grants, x.task)
  }

  predicate ErrandsOk(ids: set<string>, grants: set<nat>, errands: map<nat, Errand>) {
    forall e | e in errands :: ErrandOk(ids, grants, errands[e])
  }

  predicate ApprovalsOk(grants: set<nat>, approvals: map<Request, Approval>) {
    forall r | r in approvals :: approvals[r].request == r && approvals[r].grantId in grants
  }

  predicate AttachedOk(grants: set<nat>, attached: map<(string, string), nat>) {
    forall k | k in attached :: attached[k] in grants
  }

  /** Records are filed under their own names, and every grant in use has been issued. */
  predicate Filed(w: World) {
    var ids := w.tasks.Keys;
    && w.now >= 0 && TasksOk(w.grants, w.tasks) && RunsOk(ids, w.grants, w.runs) && StarterOk(ids, w.grants, w.starter)
    && ErrandsOk(ids, w.grants, w.errands) && ApprovalsOk(w.grants, w.approvals) && AttachedOk(w.grants, w.attached)
  }

  /** New tasks and new grants do no harm to what there is. */
  lemma MoreIsKnown(w: World, ids: set<string>, grants: set<nat>)
    requires Filed(w) && w.tasks.Keys <= ids && w.grants <= grants
    ensures TasksOk(grants, w.tasks) && RunsOk(ids, grants, w.runs) && StarterOk(ids, grants, w.starter)
    ensures ErrandsOk(ids, grants, w.errands) && ApprovalsOk(grants, w.approvals) && AttachedOk(grants, w.attached)
  {
    forall e | e in w.errands
      ensures ErrandOk(ids, grants, w.errands[e])
    {
      assert ErrandOk(w.tasks.Keys, w.grants, w.errands[e]);
    }
  }

  lemma TaskStored(grants: set<nat>, tasks: map<string, Task>, t: Task)
    requires TasksOk(grants, tasks) && t.grant.id in grants
    ensures TasksOk(grants, tasks[t.id := t])
  {
  }

  lemma ErrandStored(ids: set<string>, grants: set<nat>, errands: map<nat, Errand>, e: nat, x: Errand)
    requires ErrandsOk(ids, grants, errands) && ErrandOk(ids, grants, x)
    ensures ErrandsOk(ids, grants, errands[e := x])
  {
  }

  lemma ErrandGone(ids: set<string>, grants: set<nat>, errands: map<nat, Errand>, e: nat)
    requires ErrandsOk(ids, grants, errands)
    ensures ErrandsOk(ids, grants, errands - {e})
    ensures e in errands ==> ErrandOk(ids, grants, errands[e])
  {
  }

  lemma ApprovalStored(grants: set<nat>, approvals: map<Request, Approval>, a: Approval)
    requires ApprovalsOk(grants, approvals) && a.grantId in grants
    ensures ApprovalsOk(grants, approvals[a.request := a])
  {
  }

  lemma FiledStep(w: World, a: Action)
    requires Filed(w)
    ensures Filed(Step(w, a)) && w.grants <= Step(w, a).grants && w.tasks.Keys <= Step(w, a).tasks.Keys
  {
    hide Filed, Enabled, Apply;
    if Enabled(w, a) {
      FiledApply(w, a);
    }
  }

  /** The records that a step of the user interface writes are known. */
  lemma FiledServe(w: World, u: UserStep)
    requires Filed(w) && CanServe(w, u)
    ensures var v := Serve(w, u); Filed(v) && w.grants <= v.grants && w.tasks.Keys <= v.tasks.Keys
  {
    hide TasksOk, RunsOk, ErrandsOk, ApprovalsOk, AttachedOk, Renewed;
    var v := Serve(w, u);
    var ids := w.tasks.Keys;
    MoreIsKnown(w, v.tasks.Keys, v.grants);
    if OnErrand(u) && u.errand in w.errands {
      ErrandGone(ids, w.grants, w.errands, u.errand);
    }
    if OnErrand(u) && u.errand in v.errands {
      FiledErrand(w, u);
      ErrandStored(ids, w.grants, w.errands, u.errand, v.errands[u.errand]);
    }
    assert !u.StoreStart? ==> v.tasks.Keys == ids;
    match u
    case LoadStart(id) => FiledId(w, id);
    case StoreResume(_, _) => FiledResume(w, u);
    case StoreStart =>
      assert v.tasks.Keys == ids;
      TaskStored(v.grants, w.tasks, w.starter.task.(status := IsRunning));
      RunStored(ids, w.grants, w.runs, w.starter.task);
    case StoreSubmit(e) => TaskStored(v.grants, w.tasks, w.errands[e].task);
    case StoreCancel(e) => TaskStored(v.grants, w.tasks, v.tasks[w.errands[e].task.id]);
    case StoreAttach(e) => AttachStored(w.grants, w.attached, (w.errands[e].task.id, w.errands[e].path), w.errands[e].task.grant.id);
    case StoreDecision(e) => ApprovalStored(w.grants, w.approvals, v.approvals[w.errands[e].request]);
    case _ =>
  }

  lemma FiledResume(w: World, u: UserStep)
    requires Filed(w) && CanServe(w, u) && u.StoreResume?
    ensures var v := Serve(w, u); Filed(v) && w.grants <= v.grants && w.tasks.Keys <= v.tasks.Keys
  {
    hide TasksOk, RunsOk, ErrandsOk, ApprovalsOk, AttachedOk, Renewed;
    var v := Serve(w, u);
    var t := w.errands[u.errand].task;
    var ids := w.tasks.Keys;
    ErrandGone(ids, w.grants, w.errands, u.errand);
    RenewedKeeps(w, t, u.grant);
    MoreIsKnown(w, ids, v.grants);
    TaskStored(v.grants, w.tasks, Renewed(w, t, u.grant));
    ErrandsGrow(ids, w.grants, v.grants, w.errands - {u.errand});
    assert v.tasks.Keys == ids;
  }

  lemma ErrandsGrow(ids: set<string>, grants: set<nat>, more: set<nat>, errands: map<nat, Errand>)
    requires ErrandsOk(ids, grants, errands) && grants <= more
    ensures ErrandsOk(ids, more, errands)
  {
    forall e | e in errands
      ensures ErrandOk(ids, more, errands[e])
    {
      assert ErrandOk(ids, grants, errands[e]);
    }
  }

  lemma RunStored(ids: set<string>, grants: set<nat>, runs: map<string, Run>, t: Task)
    requires RunsOk(ids, grants, runs) && Known(ids, grants, t)
    ensures RunsOk(ids, grants, runs[t.id := Run(t.(status := IsRunning), false)])
  {
  }

  lemma AttachStored(grants: set<nat>, attached: map<(string, string), nat>, k: (string, string), g: nat)
    requires AttachedOk(grants, attached) && g in grants
    ensures AttachedOk(grants, attached[k := g])
  {
  }

  /** An errand that goes on holds known copies. */
  lemma FiledErrand(w: World, u: UserStep)
    requires Filed(w) && CanServe(w, u) && OnErrand(u) && u.errand in Serve(w, u).errands
    ensures ErrandOk(w.tasks.Keys, w.grants, Serve(w, u).errands[u.errand])
  {
    hide RunsOk, AttachedOk, Renewed;
  }

  lemma FiledApply(w: World, a: Action)
    requires Filed(w) && Enabled(w, a)
    ensures Filed(Apply(w, a)) && w.grants <= Apply(w, a).grants && w.tasks.Keys <= Apply(w, a).tasks.Keys
  {
    hide TasksOk, RunsOk, ErrandsOk, ApprovalsOk, AttachedOk, L.Apply, L.Enabled, Cleared, NeedsUser, Judgement, Ended,
      Verification.Acceptable, ResultsOf, RecoveredTask, HostOf, Busy, Plain, CanServe, Serve;
    var v := Apply(w, a);
    match a
    case User(u) => FiledServe(w, u);
    case Create(t) =>
      MoreIsKnown(w, v.tasks.Keys, v.grants);
      TaskStored(v.grants, w.tasks, t);
    case EndRun(id, _) => FiledEnd(w, v, id);
    case AskUser(id, r) => FiledAsk(w, v, id, r);
    case Crash => NothingUnderWay(v.tasks.Keys, v.grants);
    case Restart => FiledRestart(w.grants, w.tasks);
    case _ =>
  }

  lemma NothingUnderWay(ids: set<string>, grants: set<nat>)
    ensures RunsOk(ids, grants, map[]) && ErrandsOk(ids, grants, map[])
  {
  }

  lemma FiledEnd(w: World, v: World, id: string)
    requires Filed(w) && id in w.runs && id in v.tasks
    requires v.tasks == w.tasks[id := w.runs[id].task.(status := v.tasks[id].status)] && v.runs == w.runs - {id}
    requires v.(tasks := w.tasks, runs := w.runs) == w
    ensures Filed(v) && v.tasks.Keys == w.tasks.Keys
  {
    hide ErrandsOk, ApprovalsOk, AttachedOk;
    assert v.tasks.Keys == w.tasks.Keys;
  }

  lemma FiledAsk(w: World, v: World, id: string, r: Request)
    requires Filed(w) && id in w.runs
    requires v == w.(approvals := w.approvals[r := Approval(r, w.runs[id].task.grant.id, false, false)],
                     runs := w.runs[id := w.runs[id].(pending := true)])
    ensures Filed(v)
  {
    hide ErrandsOk, TasksOk, AttachedOk;
  }

  lemma FiledRestart(grants: set<nat>, tasks: map<string, Task>)
    requires TasksOk(grants, tasks)
    ensures TasksOk(grants, map id | id in tasks :: RecoveredTask(tasks[id]))
    ensures (map id | id in tasks :: RecoveredTask(tasks[id])).Keys == tasks.Keys
  {
  }

  lemma FiledId(w: World, id: string)
    requires Filed(w)
    ensures id in w.tasks ==> w.tasks[id].id == id && w.tasks[id].grant.id in w.grants
    ensures id in w.runs ==>
              w.runs[id].task.id == id && id in w.tasks && w.runs[id].task.grant.id in w.grants
  {
  }

  lemma RenewedKeeps(w: World, t: Task, g: nat)
    ensures Renewed(w, t, g).id == t.id && Renewed(w, t, g).grant.id == g
    ensures Renewed(w, t, g).status == if t.current then t.status else Interrupted
  {
  }

  lemma {:induction false} AlwaysFiled(actions: seq<Action>)
    ensures Filed(After(actions))
  {
    hide Filed, Step;
    if actions == [] {
      FiledAtFirst();
    } else {
      AlwaysFiled(actions[..|actions| - 1]);
      FiledStep(After(actions[..|actions| - 1]), actions[|actions| - 1]);
    }
  }

  lemma FiledAtFirst()
    ensures Filed(BEGINNING)
  {
  }

  lemma LedgerStep(w: World, a: Action)
    requires L.Inv(w.ledger)
    ensures L.Inv(Step(w, a).ledger)
    ensures Step(w, a).ledger == w.ledger
            || exists b :: L.Enabled(w.ledger, b) && Step(w, a).ledger == L.Apply(w.ledger, b)
  {
    hide L.Inv, L.Apply, L.Enabled, Cleared, NeedsUser, Judgement, Ended, Verification.Acceptable, ResultsOf,
      LedgerProofs.Settled, CanServe, Serve, RecoveredTask, HostOf, Busy;
    if Enabled(w, a) {
      match a
      case User(u) => ServeKeepsCalls(w, u);
      case Tool(c, id, r) => LedgerProofs.StepKeeps(w.ledger, L.Begin(c, r));
      case Guard(c) => LedgerProofs.StepKeeps(w.ledger, L.Authorise(c));
      case Do(step) => LedgerProofs.StepKeeps(w.ledger, step);
      case Crash => LedgerProofs.StepKeeps(w.ledger, L.Crash);
      case Restart => LedgerProofs.StepKeeps(w.ledger, L.Restart);
      case _ =>
    }
  }

  lemma {:induction false} LedgerAlways(actions: seq<Action>)
    ensures L.Inv(After(actions).ledger)
  {
    hide L.Inv, Step;
    if actions == [] {
      LedgerProofs.EmptyHolds();
    } else {
      LedgerAlways(actions[..|actions| - 1]);
      LedgerStep(After(actions[..|actions| - 1]), actions[|actions| - 1]);
    }
  }

  // ------------------------------------------------------- looking back in time

  lemma TakenEarlier(actions: seq<Action>, i: nat, a: Action)
    requires actions != [] && Taken(actions[..|actions| - 1], i, a)
    ensures Taken(actions, i, a) && actions[..|actions| - 1][..i] == actions[..i]
  {
    assert actions[..|actions| - 1][..i] == actions[..i];
  }

  lemma TakenPrefix(actions: seq<Action>, n: nat, i: nat, a: Action)
    requires n <= |actions| && Taken(actions[..n], i, a)
    ensures i < n && Taken(actions, i, a) && actions[..n][..i] == actions[..i]
  {
    assert actions[..n][..i] == actions[..i];
  }

  lemma LastTaken(actions: seq<Action>)
    requires actions != []
    ensures var n := |actions| - 1;
            if Enabled(After(actions[..n]), actions[n]) then
              Taken(actions, n, actions[n]) && After(actions) == Apply(After(actions[..n]), actions[n])
            else After(actions) == After(actions[..n])
  {
    hide Enabled, Apply;
  }

  lemma LedgerCallKept(s: L.Ledger, b: L.Action, c: nat)
    requires L.Enabled(s, b) && c in L.Apply(s, b).calls && !(b.Begin? && b.c == c)
    ensures c in s.calls && L.Apply(s, b).calls[c].request == s.calls[c].request
    ensures Past(L.Apply(s, b).calls[c].phase) && !(b.Authorise? && b.c == c) ==> Past(s.calls[c].phase)
  {
    hide L.Identified, L.InsertRow, L.FinishRow, L.Find, L.FinalStatus, L.Mutates;
  }

  /** The phases that lie behind the check of authority. */
  predicate Past(p: L.Phase) { !p.Waiting? && !p.Entered? && !p.Leaving? }

  /** A call keeps its request and its copy of the task, and passes the check only by its own step. */
  lemma CallKept(w: World, a: Action, c: nat)
    requires Enabled(w, a) && c in Apply(w, a).ledger.calls && !(a.Tool? && a.call == c)
    ensures var v := Apply(w, a);
            && c in w.ledger.calls && v.ledger.calls[c].request == w.ledger.calls[c].request
            && (c in w.calls ==> c in v.calls && v.calls[c] == w.calls[c])
            && (Past(v.ledger.calls[c].phase) && !(a.Guard? && a.call == c) ==> Past(w.ledger.calls[c].phase))
  {
    hide Cleared, NeedsUser, Judgement, Ended, Verification.Acceptable, ResultsOf, L.Enabled, L.Apply, Past, CanServe,
      RecoveredTask, HostOf, Busy;
    if a.User? {
      ServeKeepsCalls(w, a.ui);
    }
    match a
    case Tool(d, id, r) => LedgerCallKept(w.ledger, L.Begin(d, r), c);
    case Guard(d) => LedgerCallKept(w.ledger, L.Authorise(d), c);
    case Do(step) => LedgerCallKept(w.ledger, step, c);
    case Crash => NoCallsLeft(w.ledger);
    case Restart => LedgerCallKept(w.ledger, L.Restart, c);
    case _ =>
  }

  lemma ServeKeepsCalls(w: World, u: UserStep)
    requires CanServe(w, u)
    ensures var v := Serve(w, u); v.ledger == w.ledger && v.calls == w.calls && v.verified == w.verified && v.hosts == w.hosts
  {
    hide Renewed;
  }

  lemma NoCallsLeft(s: L.Ledger)
    requires L.Enabled(s, L.Crash)
    ensures L.Apply(s, L.Crash).calls == map[]
  {
  }

  /** The copy of the task that a call works with was allowed to make that request. */
  lemma {:induction false} CallWasCleared(actions: seq<Action>, c: nat) returns (i: nat, id: string)
    requires c in After(actions).ledger.calls
    ensures c in After(actions).calls
    ensures Taken(actions, i, Tool(c, id, After(actions).ledger.calls[c].request))
    ensures id in After(actions[..i]).runs && After(actions[..i]).runs[id].task == After(actions).calls[c]
  {
    hide Enabled, Apply, After, Taken;
    NoneAtFirst(actions);
    var n := |actions| - 1;
    var w := After(actions[..n]);
    LastTaken(actions);
    if Enabled(w, actions[n]) && actions[n].Tool? && actions[n].call == c {
      i, id := n, actions[n].id;
      Begun(w, c, id, actions[n].request);
    } else {
      if Enabled(w, actions[n]) {
        CallKept(w, actions[n], c);
      }
      i, id := CallWasCleared(actions[..n], c);
      TakenEarlier(actions, i, Tool(c, id, w.ledger.calls[c].request));
    }
  }

  lemma NoneAtFirst(actions: seq<Action>)
    ensures (After(actions).ledger.calls != map[] || After(actions).approvals != map[] || After(actions).attached != map[]
             || After(actions).errands != map[]) ==> actions != []
  {
  }

  lemma Begun(w: World, c: nat, id: string, r: Request)
    requires Enabled(w, Tool(c, id, r))
    ensures var v := Apply(w, Tool(c, id, r));
            && id in w.runs && c in v.calls && v.calls[c] == w.runs[id].task
            && c in v.ledger.calls && v.ledger.calls[c].request == r
  {
    hide Cleared;
  }

  lemma GuardTaken(w: World, c: nat)
    requires L.Inv(w.ledger) && Enabled(w, Guard(c))
    ensures c in w.ledger.calls && !w.ledger.calls[c].phase.Waiting? && c in w.calls
    ensures !Judgement(w, w.calls[c], w.ledger.calls[c].request).Denied?
    ensures LedgerProofs.HoldsLock(w.ledger, c)
    ensures var v := Apply(w, Guard(c));
            c in v.ledger.calls && v.calls == w.calls && v.ledger.calls[c].request == w.ledger.calls[c].request
  {
    hide Judgement;
    LedgerProofs.HeldBy(w.ledger, c);
  }

  /** The check that a call passed once it held the lock of its host. */
  ghost predicate Guarded(actions: seq<Action>, j: nat, c: nat, t: Task, r: Request) {
    && Taken(actions, j, Guard(c))
    && var w := After(actions[..j]);
       && c in w.calls && w.calls[c] == t && c in w.ledger.calls && w.ledger.calls[c].request == r
       && LedgerProofs.HoldsLock(w.ledger, c) && !Judgement(w, t, r).Denied?
  }

  lemma {:induction false} CallWasGuarded(actions: seq<Action>, c: nat) returns (j: nat)
    requires c in After(actions).ledger.calls && Past(After(actions).ledger.calls[c].phase)
    ensures c in After(actions).calls
    ensures Guarded(actions, j, c, After(actions).calls[c], After(actions).ledger.calls[c].request)
  {
    hide Enabled, Apply, After, Taken, L.Inv, Past, LedgerProofs.HoldsLock, Judgement;
    NoneAtFirst(actions);
    var n := |actions| - 1;
    var w := After(actions[..n]);
    LastTaken(actions);
    LedgerAlways(actions[..n]);
    var i, id := CallWasCleared(actions, c);
    if !Enabled(w, actions[n]) {
      j := CallWasGuarded(actions[..n], c);
      TakenEarlier(actions, j, Guard(c));
    } else if actions[n] == Guard(c) {
      j := n;
      GuardTaken(w, c);
    } else {
      if actions[n].Tool? && actions[n].call == c {
        BegunPhase(w, c, actions[n].id, actions[n].request);
      }
      CallKept(w, actions[n], c);
      j := CallWasGuarded(actions[..n], c);
      TakenEarlier(actions, j, Guard(c));
    }
  }

  lemma BegunPhase(w: World, c: nat, id: string, r: Request)
    requires Enabled(w, Tool(c, id, r))
    ensures !Past(Apply(w, Tool(c, id, r)).ledger.calls[c].phase)
  {
    hide Cleared;
  }

  // ----------------------------------------------------- decisions of the user

  /** What the other steps do to errands, decisions and attachments. */
  lemma NotServed(w: World, a: Action)
    requires Enabled(w, a) && !a.User?
    ensures var v := Apply(w, a);
            && v.attached == w.attached && (v.errands == w.errands || v.errands == map[])
            && (v.starter == w.starter || v.starter == Free)
            && forall r | SaysYes(v, r) :: SaysYes(w, r) && v.approvals[r] == w.approvals[r]
  {
    hide Cleared, NeedsUser, Judgement, Ended, Verification.Acceptable, ResultsOf, L.Enabled, L.Apply, RecoveredTask, HostOf,
      Busy, CanServe, Serve;
  }

  lemma Served(w: World, u: UserStep)
    ensures Enabled(w, User(u)) <==> w.ledger.up && CanServe(w, u)
    ensures Enabled(w, User(u)) ==> Apply(w, User(u)) == Serve(w, u)
  {
    hide CanServe, Serve;
  }

  /** At step `d` a yes of the user to exactly this request was found to belong to this grant, which was alive. */
  ghost predicate Accepted(actions: seq<Action>, d: nat, r: Request, grant: nat) {
    && d < |actions| && actions[d].User? && actions[d].ui.CheckDecision? && Taken(actions, d, actions[d])
    && AcceptedIn(After(actions[..d]), actions[d].ui.errand, r, grant)
  }

  predicate AcceptedIn(w: World, e: nat, r: Request, grant: nat) {
    && e in w.errands && w.errands[e].Weighing? && w.errands[e].request == r && w.errands[e].accept
    && r.taskId in w.tasks && w.tasks[r.taskId].grant.id == grant
    && w.tasks[r.taskId].current && w.now < w.tasks[r.taskId].grant.expiresAt
  }

  /** At step `d` the user handed over this file, under this grant, which was alive. */
  ghost predicate HandedOver(actions: seq<Action>, d: nat, id: string, path: string, grant: nat) {
    && d < |actions| && actions[d].User? && actions[d].ui.LoadAttach? && Taken(actions, d, actions[d])
    && actions[d].ui.id == id && actions[d].ui.path == path
    && var w := After(actions[..d]);
       id in w.tasks && w.tasks[id].grant.id == grant && w.now < w.tasks[id].grant.expiresAt
  }

  ghost predicate UserAccepted(actions: seq<Action>, i: nat, r: Request, grant: nat) {
    exists d: nat :: d < i && Accepted(actions, d, r, grant)
  }

  ghost predicate UserHandedOver(actions: seq<Action>, i: nat, id: string, path: string, grant: nat) {
    exists d: nat :: d < i && HandedOver(actions, d, id, path, grant)
  }

  predicate SaysYes(w: World, r: Request) { r in w.approvals && w.approvals[r].decided && w.approvals[r].approved }

  /** What a step of the user interface does to the errands: its own goes on, or ends. */
  lemma ServedErrands(w: World, u: UserStep)
    requires CanServe(w, u)
    ensures var v := Serve(w, u).errands;
            if !OnErrand(u) then v == w.errands
            else if Ends(u) then v == w.errands - {u.errand} else u.errand in v && v == w.errands[u.errand := v[u.errand]]
  {
    hide Renewed, Ended;
  }

  /** Which steps of the user interface write what. */
  lemma ServedRecords(w: World, u: UserStep)
    requires CanServe(w, u)
    ensures var v := Serve(w, u);
            && (u.StoreDecision? || v.approvals == w.approvals) && (u.StoreAttach? || v.attached == w.attached)
            && (u.StoreStart? || v.runs == w.runs)
            && (u.StoreStart? || u.StoreResume? || u.StoreSubmit? || u.StoreCancel? || v.tasks == w.tasks)
            && (u.LoadStart? || u.StoreStart? || u.DropStart? || v.starter == w.starter)
            && (u.StoreResume? || v.grants == w.grants)
  {
    hide Renewed;
  }

  lemma ServedDeciding(w: World, u: UserStep)
    requires CanServe(w, u) && GoesOn(u) && Serve(w, u).errands[u.errand].Deciding?
    ensures u.CheckDecision? && u.errand in w.errands && w.errands[u.errand].Weighing?
    ensures var (x, y) := (w.errands[u.errand], Serve(w, u).errands[u.errand]);
            && x.request == y.request && x.accept == y.accept && x.approval == y.approval
            && var id := x.approval.request.taskId; id in w.tasks && w.tasks[id].grant.id == x.approval.grantId
  {
    hide Renewed;
  }

  lemma ServedAttaching(w: World, u: UserStep)
    requires CanServe(w, u) && GoesOn(u) && Serve(w, u).errands[u.errand].Attaching?
    ensures u.LoadAttach? && u.id in w.tasks
    ensures Serve(w, u).errands[u.errand] == Attaching(w.tasks[u.id], u.path)
  {
    hide Renewed;
  }

  lemma StoredDecision(w: World, e: nat)
    requires CanServe(w, StoreDecision(e))
    ensures e in w.errands && w.errands[e].Deciding?
    ensures var x := w.errands[e];
            Serve(w, StoreDecision(e)).approvals == w.approvals[x.request := x.approval.(approved := x.accept, decided := true)]
  {
  }

  lemma StoredAttachment(w: World, e: nat)
    requires CanServe(w, StoreAttach(e))
    ensures e in w.errands && w.errands[e].Attaching?
    ensures var x := w.errands[e];
            Serve(w, StoreAttach(e)).attached == w.attached[(x.task.id, x.path) := x.task.grant.id]
  {
  }

  predicate GoesOn(u: UserStep) { OnErrand(u) && !Ends(u) }

  predicate Ends(u: UserStep) {
    u.StoreResume? || u.StoreSubmit? || u.StoreCancel? || u.StoreAttach? || u.StoreDecision? || u.Forget?
  }

  /** A yes was there before, or is just being stored. */
  lemma YesKept(w: World, a: Action, r: Request)
    requires Enabled(w, a) && SaysYes(Apply(w, a), r)
    ensures (SaysYes(w, r) && w.approvals[r] == Apply(w, a).approvals[r])
            || (a.User? && a.ui.StoreDecision? && a.ui.errand in w.errands && w.errands[a.ui.errand].Deciding?
                && var x := w.errands[a.ui.errand];
                   x.request == r && x.accept && x.approval.grantId == Apply(w, a).approvals[r].grantId)
  {
    hide Enabled, Apply, Serve, CanServe;
    if a.User? {
      Served(w, a.ui);
      ServedErrands(w, a.ui);
      ServedRecords(w, a.ui);
      if a.ui.StoreDecision? {
        StoredDecision(w, a.ui.errand);
      }
    } else {
      NotServed(w, a);
    }
  }

  /** A compared decision was compared before, or just now. */
  lemma DecidingKept(w: World, a: Action, e: nat)
    requires Enabled(w, a) && e in Apply(w, a).errands && Apply(w, a).errands[e].Deciding?
    ensures e in w.errands
    ensures w.errands[e] == Apply(w, a).errands[e]
            || (a == User(CheckDecision(e)) && w.errands[e].Weighing?
                && var (x, y) := (w.errands[e], Apply(w, a).errands[e]);
                   && x.request == y.request && x.accept == y.accept && x.approval == y.approval
                   && var id := x.approval.request.taskId; id in w.tasks && w.tasks[id].grant.id == x.approval.grantId)
  {
    hide Enabled, Apply, Serve, CanServe;
    if a.User? {
      Served(w, a.ui);
      ServedErrands(w, a.ui);
      ServedRecords(w, a.ui);
      if GoesOn(a.ui) && a.ui.errand == e {
        ServedDeciding(w, a.ui);
      }
    } else {
      NotServed(w, a);
    }
  }

  lemma {:induction false} DecisionWasCompared(actions: seq<Action>, e: nat) returns (d: nat)
    requires e in After(actions).errands && After(actions).errands[e].Deciding? && After(actions).errands[e].accept
    ensures Accepted(actions, d, After(actions).errands[e].request, After(actions).errands[e].approval.grantId)
  {
    hide Enabled, Apply, After, Taken, Filed;
    NoneAtFirst(actions);
    var n := |actions| - 1;
    var w := After(actions[..n]);
    LastTaken(actions);
    AlwaysFiled(actions[..n]);
    if Enabled(w, actions[n]) {
      DecidingKept(w, actions[n], e);
      FiledWeighing(w, e);
    }
    if Enabled(w, actions[n]) && actions[n] == User(CheckDecision(e)) {
      d := n;
      WasWeighing(w, e);
    } else {
      d := DecisionWasCompared(actions[..n], e);
      TakenEarlier(actions, d, actions[d]);
    }
  }

  lemma FiledWeighing(w: World, e: nat)
    requires Filed(w)
    ensures e in w.errands && w.errands[e].Weighing? ==> w.errands[e].approval.request == w.errands[e].request
  {
    hide TasksOk, RunsOk, ApprovalsOk, AttachedOk;
    if e in w.errands {
      assert ErrandOk(w.tasks.Keys, w.grants, w.errands[e]);
    }
  }

  lemma FiledApproval(w: World, r: Request)
    requires Filed(w)
    ensures r in w.approvals ==> w.approvals[r].request == r && w.approvals[r].grantId in w.grants
  {
    hide TasksOk, RunsOk, ErrandsOk, AttachedOk;
  }

  lemma WasWeighing(w: World, e: nat)
    requires Enabled(w, User(CheckDecision(e)))
    ensures e in w.errands && w.errands[e].Weighing?
    ensures var id := w.errands[e].approval.request.taskId;
            id in w.tasks && w.tasks[id].current && w.now < w.tasks[id].grant.expiresAt
  {
  }

  lemma {:induction false} YesWasSaid(actions: seq<Action>, r: Request) returns (d: nat)
    requires SaysYes(After(actions), r)
    ensures Accepted(actions, d, r, After(actions).approvals[r].grantId)
  {
    hide Enabled, Apply, After, Taken, AcceptedIn;
    NoneAtFirst(actions);
    var n := |actions| - 1;
    var w := After(actions[..n]);
    LastTaken(actions);
    if Enabled(w, actions[n]) {
      YesKept(w, actions[n], r);
    }
    if SaysYes(w, r) && w.approvals[r] == After(actions).approvals[r] {
      d := YesWasSaid(actions[..n], r);
    } else {
      d := DecisionWasCompared(actions[..n], actions[n].ui.errand);
    }
    TakenEarlier(actions, d, actions[d]);
  }

  lemma AttachedKept(w: World, a: Action, id: string, path: string)
    requires Enabled(w, a) && (id, path) in Apply(w, a).attached
    ensures ((id, path) in w.attached && w.attached[(id, path)] == Apply(w, a).attached[(id, path)])
            || (a.User? && a.ui.StoreAttach? && a.ui.errand in w.errands && w.errands[a.ui.errand].Attaching?
                && var x := w.errands[a.ui.errand];
                   x.task.id == id && x.path == path && x.task.grant.id == Apply(w, a).attached[(id, path)])
  {
    hide Enabled, Apply, Serve, CanServe;
    if a.User? {
      Served(w, a.ui);
      ServedErrands(w, a.ui);
      ServedRecords(w, a.ui);
      if a.ui.StoreAttach? {
        StoredAttachment(w, a.ui.errand);
      }
    } else {
      NotServed(w, a);
    }
  }

  lemma AttachingKept(w: World, a: Action, e: nat)
    requires Enabled(w, a) && e in Apply(w, a).errands && Apply(w, a).errands[e].Attaching?
    ensures (e in w.errands && w.errands[e] == Apply(w, a).errands[e])
            || (a.User? && a.ui.LoadAttach? && a.ui.errand == e && a.ui.path == Apply(w, a).errands[e].path
                && a.ui.id in w.tasks && w.tasks[a.ui.id] == Apply(w, a).errands[e].task)
  {
    hide Enabled, Apply, Serve, CanServe;
    if a.User? {
      Served(w, a.ui);
      ServedErrands(w, a.ui);
      ServedRecords(w, a.ui);
      if GoesOn(a.ui) && a.ui.errand == e {
        ServedAttaching(w, a.ui);
      }
    } else {
      NotServed(w, a);
    }
  }

  lemma {:induction false} AttachmentWasRead(actions: seq<Action>, e: nat) returns (d: nat)
    requires e in After(actions).errands && After(actions).errands[e].Attaching?
    ensures var x := After(actions).errands[e]; HandedOver(actions, d, x.task.id, x.path, x.task.grant.id)
  {
    hide Enabled, Apply, After, Taken, Filed;
    NoneAtFirst(actions);
    var n := |actions| - 1;
    var w := After(actions[..n]);
    LastTaken(actions);
    AlwaysFiled(actions[..n]);
    if Enabled(w, actions[n]) {
      AttachingKept(w, actions[n], e);
    }
    if e in w.errands && w.errands[e] == After(actions).errands[e] {
      d := AttachmentWasRead(actions[..n], e);
      TakenEarlier(actions, d, actions[d]);
    } else {
      d := n;
      WasAlive(w, actions[n].ui);
      FiledId(w, actions[n].ui.id);
    }
  }

  lemma WasAlive(w: World, u: UserStep)
    requires u.LoadAttach? && Enabled(w, User(u))
    ensures u.id in w.tasks && w.now < w.tasks[u.id].grant.expiresAt
  {
  }

  lemma {:induction false} FileWasHandedOver(actions: seq<Action>, id: string, path: string) returns (d: nat)
    requires (id, path) in After(actions).attached
    ensures HandedOver(actions, d, id, path, After(actions).attached[(id, path)])
  {
    hide Enabled, Apply, After, Taken;
    NoneAtFirst(actions);
    var n := |actions| - 1;
    var w := After(actions[..n]);
    LastTaken(actions);
    if Enabled(w, actions[n]) {
      AttachedKept(w, actions[n], id, path);
    }
    if (id, path) in w.attached && w.attached[(id, path)] == After(actions).attached[(id, path)] {
      d := FileWasHandedOver(actions[..n], id, path);
    } else {
      d := AttachmentWasRead(actions[..n], actions[n].ui.errand);
    }
    TakenEarlier(actions, d, actions[d]);
  }

  // ---------------------------------------------------------------- main result

  /** Why a copy of a task was let through with a request at step `i`. */
  ghost predicate Grounds(actions: seq<Action>, i: nat, t: Task, r: Request) {
    i <= |actions|
    && var w := After(actions[..i]);
       || (!L.IsLocal(r.operation) && r.hostId in w.hosts && InScope(t, w.hosts[r.hostId], r, w.now))
       || (L.IsLocal(r.operation) && EvaluateLocal(t, r, w.now).Allowed?)
       || (L.IsLocal(r.operation) && UserHandedOver(actions, i, t.id, r.localPath, t.grant.id))
       || UserAccepted(actions, i, r, t.grant.id)
  }

  /** What holds of every request that is let through, by the name of its operation. */
  predicate Entitled(t: Task, r: Request, accepted: bool) {
    && (LooksOnly(r.operation) || MayAlter(r.operation) || StaysHere(r.operation))
    && (r.operation in {"file_hash", "file_read", "file_write", "service_restart", "package_install"} ==>
          r.resource in t.grant.resources || accepted)
    && (r.operation in {"file_hash", "file_read", "file_write", "upload_local"} ==> Paths.Clean(r.resource) && r.resource != "/")
    && (r.operation in {"shell", "terminal_write", "upload_local"} ==> accepted)
    && (!StaysHere(r.operation) ==>
          r.hostId in t.grant.hostIds && (r.operation in t.grant.operations || accepted))
  }

  /** What the verdicts mean for a request that was let through. */
  lemma EntitledMeans(w: World, t: Task, r: Request)
    requires Cleared(w, t, r) && Filed(w)
    ensures Entitled(t, r, SaysYes(w, r) && w.approvals[r].grantId == t.grant.id)
  {
    hide MayChange, EvaluateLocal, Evaluate, Paths.Clean, DescribesUpload;
    OperationsAreThese(r.operation);
    if L.IsLocal(r.operation) {
    } else {
      ScopeIsExact(t, w.hosts[r.hostId], r, w.now);
    }
  }

  lemma ClearedMeans(w: World, t: Task, r: Request)
    requires Cleared(w, t, r) && Filed(w)
    ensures || (!L.IsLocal(r.operation) && r.hostId in w.hosts && InScope(t, w.hosts[r.hostId], r, w.now))
            || (L.IsLocal(r.operation) && EvaluateLocal(t, r, w.now).Allowed?)
            || IsAttached(w, t, r)
            || (SaysYes(w, r) && w.approvals[r].grantId == t.grant.id)
    ensures AlwaysAsked(r.operation) ==> SaysYes(w, r) && w.approvals[r].grantId == t.grant.id
  {
    hide MayChange;
    if !L.IsLocal(r.operation) && r.hostId in w.hosts {
      ScopeIsExact(t, w.hosts[r.hostId], r, w.now);
    }
  }

  /** A call was let through for a reason, and for shell, terminal and upload only by the user. */
  lemma ToolHasGrounds(actions: seq<Action>, i: nat, c: nat, id: string, r: Request)
    requires Taken(actions, i, Tool(c, id, r))
    ensures id in After(actions[..i]).runs
    ensures var t := After(actions[..i]).runs[id].task;
            && CopyAt(actions, i, id, t) && Grounds(actions, i, t, r)
            && Entitled(t, r, UserAccepted(actions, i, r, t.grant.id))
  {
    hide After, Filed, Cleared, InScope, EvaluateLocal, L.IsLocal, LooksOnly, MayAlter, StaysHere, Paths.Clean;
    var w := After(actions[..i]);
    var t := w.runs[id].task;
    AlwaysFiled(actions[..i]);
    ClearedMeans(w, t, r);
    EntitledMeans(w, t, r);
    if SaysYes(w, r) {
      var d := YesWasSaid(actions[..i], r);
      TakenPrefix(actions, i, d, actions[d]);
      assert Accepted(actions, d, r, w.approvals[r].grantId);
    }
    if IsAttached(w, t, r) {
      var d := FileWasHandedOver(actions[..i], t.id, r.localPath);
      TakenPrefix(actions, i, d, actions[d]);
      assert HandedOver(actions, d, t.id, r.localPath, t.grant.id);
    }
  }

  /** The run of a task worked with this copy at step `i`. */
  ghost predicate CopyAt(actions: seq<Action>, i: nat, id: string, t: Task) {
    i <= |actions| && id in After(actions[..i]).runs && After(actions[..i]).runs[id].task == t
  }

  ghost predicate ClearedAndGuarded(actions: seq<Action>, i: nat, j: nat, c: nat, id: string, t: Task, r: Request) {
    && i < j && Taken(actions, i, Tool(c, id, r)) && CopyAt(actions, i, id, t)
    && Grounds(actions, i, t, r) && Guarded(actions, j, c, t, r)
    && Entitled(t, r, UserAccepted(actions, i, r, t.grant.id))
  }

  /**
   In every history: what is dispatched was first let through on one of the four grounds, for
   the copy of the task its run works with, and then passed the check again with the lock in hand.
   */
  lemma EveryDispatchHasAuthority(actions: seq<Action>, n: nat, c: nat)
    requires Taken(actions, n, Do(L.Dispatch(c)))
    ensures c in After(actions[..n]).ledger.calls
    ensures exists i: nat, j: nat, id, t :: j < n
              && ClearedAndGuarded(actions, i, j, c, id, t, After(actions[..n]).ledger.calls[c].request)
  {
    hide After, Grounds, Entitled, Judgement, LedgerProofs.HoldsLock, Enabled, Taken;
    DispatchTaken(actions, n, c);
    var w := After(actions[..n]);
    var j := CallWasGuarded(actions[..n], c);
    TakenPrefix(actions, n, j, Guard(c));
    var r, t := w.ledger.calls[c].request, w.calls[c];
    var i, id := CallWasCleared(actions[..j], c);
    TakenPrefix(actions, j, i, Tool(c, id, r));
    ToolHasGrounds(actions, i, c, id, r);
    assert ClearedAndGuarded(actions, i, j, c, id, t, r);
  }

  lemma DispatchTaken(actions: seq<Action>, n: nat, c: nat)
    requires Taken(actions, n, Do(L.Dispatch(c)))
    ensures n < |actions|
    ensures var w := After(actions[..n]); c in w.ledger.calls && Past(w.ledger.calls[c].phase)
  {
    hide After;
  }
}
