/** The service as an object: what its methods do is exactly a step of the world. */
module ServiceObject {
  import L = Ledger
  import opened Policy
  import opened StoreObject
  import opened Verification
  import opened World
  import opened Authority
  import Renewal
  import opened WorldSteps

  /** The answer to a tool call before anything is carried out. */
  datatype Decision = Proceed | Interrupt(approval: Approval) | Declined | Correctable

  class Service {
    var ledger: L.Ledger
    var tasks: map<string, Task>
    var hosts: map<string, Host>
    var approvals: map<Request, Approval>
    var attached: map<(string, string), nat>
    var verified: map<(string, string), Evidence>
    var active: map<string, Run>
    var starter: Starter
    var errands: map<nat, Errand>
    var calls: map<nat, Task>
    var grants: set<nat>
    var now: int

    ghost function State(): World
      reads this
    {
      World(ledger, tasks, hosts, approvals, attached, verified, active, starter, errands, calls, grants, now)
    }

    /** Records are filed under their own names. */
    ghost predicate Valid()
      reads this
    {
      Filed(State())
    }

    constructor ()
      ensures State() == BEGINNING && Valid()
    {
      ledger, tasks, hosts, approvals, attached := L.EMPTY, map[], map[], map[], map[];
      verified, active, starter, errands := map[], map[], Free, map[];
      calls, grants, now := map[], {}, 0;
      new;
      FiledAtFirst();
    }

    /** What a run that works with `t` may do about a request. */
    method Decision(t: Task, r: Request) returns (d: Decision)
      ensures d.Proceed? <==> Cleared(State(), t, r)
      ensures d.Interrupt? <==> NeedsUser(State(), t, r)
      ensures d.Interrupt? ==> d.approval == Approval(r, t.grant.id, false, false)
      ensures d.Declined? <==>
                && MayChange(State(), t, r) && Judgement(State(), t, r).Ask?
                && !IsAttached(State(), t, r) && IsDeclined(State(), t, r)
    {
      hide Evaluate, EvaluateLocal, L.Mutates, ResultsOf;
      var verdict: Verdict;
      if L.IsLocal(r.operation) {
        verdict := EvaluateLocal(t, r, now);
        if verdict.Ask? && (t.id, r.localPath) in attached && attached[(t.id, r.localPath)] == t.grant.id {
          return Proceed;
        }
      } else {
        if r.hostId !in hosts {
          return Correctable;
        }
        if L.Mutates(r.operation) && !NoneOpen(ResultsOf(ledger.rows, t.id)) {
          return Correctable;
        }
        verdict := Evaluate(t, hosts[r.hostId], r, now);
      }
      if verdict.Denied? {
        return Correctable;
      }
      if verdict.Ask? {
        if r in approvals && approvals[r].decided && approvals[r].grantId == t.grant.id && !approvals[r].approved {
          return Declined;
        }
        if r !in approvals || !ApprovedFor(approvals[r], t, r) {
          return Interrupt(Approval(r, t.grant.id, false, false));
        }
      }
      return Proceed;
    }

    /** The interruption of a run reaches the store. */
    method RecordApproval(id: string, a: Approval)
      requires ledger.up && id in active && NeedsUser(State(), active[id].task, a.request)
      requires a == Approval(a.request, active[id].task.grant.id, false, false)
      modifies this`active, this`approvals
      ensures State() == Step(old(State()), AskUser(id, a.request))
    {
      hide NeedsUser, L.Apply, L.Enabled;
      active := active[id := active[id].(pending := true)];
      approvals := approvals[a.request := a];
    }

    /** One start, under the lock of the runs; `prepared` says that model and tools could be made. */
    method Begin(id: string, prepared: bool) returns (ok: bool)
      requires ledger.up && Valid() && starter.Free?
      modifies this`tasks, this`active, this`starter
      ensures Valid()
      ensures State() == StartSteps(old(State()), id, prepared)
      ensures ok <==> prepared && Enabled(old(State()), User(LoadStart(id)))
      ensures starter.Free? && (ok ==> id !in old(active) && id in active)
    {
      hide Filed, Step, Enabled, StartSteps;
      StartsAre(State(), id, prepared);
      if id in active || id !in tasks {
        return false;
      }
      var t := tasks[id];
      if !t.current || now >= t.grant.expiresAt || !prepared {
        return false;
      }
      t := t.(status := IsRunning);
      tasks := tasks[id := t];
      active := active[id := Run(t, false)];
      return true;
    }

    /** `grant` is a newly drawn identifier, `e` names this call. The task is stored before a run is attempted. */
    method Renew(e: nat, id: string, grant: nat, prepared: bool) returns (ok: bool)
      requires ledger.up && Valid() && starter.Free? && e !in errands && grant !in grants
      modifies this`tasks, this`active, this`grants, this`starter
      ensures Valid() && starter.Free?
      ensures var checked := Checked(old(State()), e, id);
              if Enabled(checked, User(StoreResume(e, grant)))
              then State() == StartSteps(Apply(checked, User(StoreResume(e, grant))), id, prepared)
              else !ok && State() == old(State())
      ensures ok ==> id !in old(active) && id in active
    {
      hide *;
      ok := StoreRenewed(e, id, grant);
      if ok {
        ok := Begin(id, prepared);
      }
    }

    /** Everything up to storing the task. */
    method StoreRenewed(e: nat, id: string, grant: nat) returns (ok: bool)
      requires ledger.up && Valid() && e !in errands && grant !in grants
      modifies this`tasks, this`grants
      ensures Valid()
      ensures var checked := Checked(old(State()), e, id);
              && (ok <==> Enabled(checked, User(StoreResume(e, grant))))
              && State() == if ok then Apply(checked, User(StoreResume(e, grant))) else old(State())
    {
      hide Filed, Step, Enabled, Apply, Renewed, ResultsOf, Checked, Open, Identified;
      RenewalIs(State(), e, id, grant);
      if id !in tasks {
        return false;
      }
      var t := tasks[id];
      var settled := AllSettled(id);
      if !settled {
        return false;
      }
      var known, identities := Identities(t.grant);
      if !known {
        return false;
      }
      RenewalFiled(State(), e, id, grant);
      var renewed := NewlyGranted(t, grant, identities);
      PutRenewed(id, renewed, grant);
      return true;
    }

    /** The task under its new grant. */
    method NewlyGranted(t: Task, grant: nat, identities: map<string, Host>) returns (r: Task)
      requires identities == Identified(t.grant.identities, hosts, t.grant.hostIds)
      ensures r == Renewed(State(), t, grant)
    {
      hide Renewed, Identified;
      RenewedIs(State(), t, grant);
      r := t;
      if !r.current {
        r := r.(status := Interrupted);
      }
      r := r.(current := true, grant := t.grant.(id := grant, expiresAt := now + EIGHT_HOURS, identities := identities));
    }

    method PutRenewed(id: string, t: Task, grant: nat)
      modifies this`tasks, this`grants
      ensures State() == old(State()).(tasks := old(tasks)[id := t], grants := old(grants) + {grant})
    {
      tasks := tasks[id := t];
      grants := grants + {grant};
    }

    /** A message for a task that has no run. */
    method Submit(e: nat, id: string, prepared: bool) returns (ok: bool)
      requires ledger.up && Valid() && starter.Free? && e !in errands
      modifies this`tasks, this`active, this`starter
      ensures Valid()
      ensures State() == StartSteps(SubmitSteps(old(State()), e, id), id, prepared)
    {
      hide Filed, Step, Enabled, StartSteps, SubmitSteps;
      SubmissionIs(State(), e, id);
      if id in active || id !in tasks {
        NoStart(State(), id, prepared);
        return false;
      }
      var t := tasks[id];
      if t.status.AwaitingApproval? || t.status.Interrupted? {
        tasks := tasks[id := t];
        assert tasks == old(tasks);
      }
      ok := Begin(id, prepared);
    }

    method AllSettled(id: string) returns (ok: bool)
      ensures ok <==> forall r | r in ResultsOf(ledger.rows, id) :: !Open(r)
    {
      hide ResultsOf;
      var results := ResultsOf(ledger.rows, id);
      for i := 0 to |results|
        invariant forall j | 0 <= j < i :: !Open(results[j])
      {
        if Open(results[i]) {
          return false;
        }
      }
      return true;
    }

    method Identities(g: Grant) returns (ok: bool, identities: map<string, Host>)
      ensures ok <==> forall h | h in g.hostIds :: h in hosts
      ensures ok ==> identities == Identified(g.identities, hosts, g.hostIds)
    {
      identities := g.identities;
      for i := 0 to |g.hostIds|
        invariant forall j | 0 <= j < i :: g.hostIds[j] in hosts
        invariant identities == Identified(g.identities, hosts, g.hostIds[..i])
      {
        if g.hostIds[i] !in hosts {
          return false, identities;
        }
        assert g.hostIds[..i + 1][..i] == g.hostIds[..i];
        identities := identities[g.hostIds[i] := hosts[g.hostIds[i]]];
      }
      assert g.hostIds[..|g.hostIds|] == g.hostIds;
      ok := true;
    }

    /** The user's decision about a request; then the task goes on. */
    method Answer(e: nat, id: string, r: Request, accept: bool, prepared: bool) returns (ok: bool)
      requires ledger.up && Valid() && starter.Free? && e !in errands
      modifies this`approvals, this`tasks, this`active, this`starter
      ensures Valid() && starter.Free?
      ensures var weighed := Step(old(State()), User(Weigh(e, r, accept)));
              if r in old(approvals) && r.taskId == id && Enabled(weighed, User(CheckDecision(e)))
              then State() == StartSteps(Step(Step(weighed, User(CheckDecision(e))), User(StoreDecision(e))), id, prepared)
              else !ok && State() == old(State())
      ensures ok ==> id !in old(active) && id in active
    {
      hide *;
      ok := StoreAnswer(e, id, r, accept);
      if ok {
        ok := Begin(id, prepared);
      }
    }

    /** The decision is stored if the approval is of this task and of its present grant. */
    method StoreAnswer(e: nat, id: string, r: Request, accept: bool) returns (ok: bool)
      requires ledger.up && Valid() && e !in errands
      modifies this`approvals
      ensures Valid()
      ensures var weighed := Step(old(State()), User(Weigh(e, r, accept)));
              && (ok <==> r in old(approvals) && r.taskId == id && Enabled(weighed, User(CheckDecision(e))))
              && State() == if ok then Step(Step(weighed, User(CheckDecision(e))), User(StoreDecision(e))) else old(State())
    {
      hide Filed, Step, Enabled;
      DecisionIs(State(), e, r, accept);
      FiledApproval(State(), r);
      if r !in approvals {
        return false;
      }
      var a := approvals[r];
      if a.request.taskId != id || id !in tasks {
        return false;
      }
      var t := tasks[id];
      if !t.current || a.grantId != t.grant.id || now >= t.grant.expiresAt {
        return false;
      }
      approvals := approvals[r := a.(approved := accept, decided := true)];
      return true;
    }

    method Cancel(e: nat, id: string)
      requires ledger.up && Valid() && starter.Free? && e !in errands
      modifies this`tasks
      ensures Valid()
      ensures State() == CancelSteps(old(State()), e, id)
    {
      hide Filed, Step, Enabled, CancelSteps;
      CancellationIs(State(), e, id);
      CancellationFiled(State(), e, id);
      if id in active || id !in tasks {
        return;
      }
      var t := tasks[id];
      if t.status.AwaitingApproval? || t.status.IsReady? {
        tasks := tasks[id := t.(status := Interrupted, grant := t.grant.(expiresAt := NEVER))];
      }
    }

    /** The end of a run, once its tool calls have returned. */
    method Finish(id: string, cause: Cause)
      requires ledger.up && starter.Free? && id in active && !Busy(State(), id)
      modifies this`tasks, this`active
      ensures State() == Step(old(State()), EndRun(id, cause))
    {
      hide L.Apply, L.Enabled, ResultsOf, AllVerified, Remote;
      var t := active[id].task;
      var results := ResultsOf(ledger.rows, id);
      if active[id].pending {
        t := t.(status := AwaitingApproval);
      } else if cause.Cancelled? {
        t := t.(status := Interrupted);
      } else if cause.BlockedTurn? {
        t := t.(status := Blocked);
      } else if cause.Erred? {
        t := t.(status := HasFailed);
      } else if cause.Exited? {
        t := t.(status := Interrupted);
      } else if t.conversation && Remote(results) == [] {
        t := t.(status := IsReady);
      } else if AllVerified(id, results, verified) {
        t := t.(status := Completed);
      } else {
        t := t.(status := NeedsVerification);
      }
      tasks := tasks[id := t];
      active := active - {id};
    }
  }

  // ------------------------------------------------ the steps of one call alone

  ghost function StartSteps(w: World, id: string, prepared: bool): World {
    Step(Step(w, User(LoadStart(id))), User(if prepared then StoreStart else DropStart))
  }

  ghost function SubmitSteps(w: World, e: nat, id: string): World {
    Step(Step(Step(Step(w, User(Look(e, id))), User(LoadSubmit(e))), User(StoreSubmit(e))), User(Forget(e)))
  }

  ghost function CancelSteps(w: World, e: nat, id: string): World {
    Step(Step(Step(Step(w, User(Look(e, id))), User(LoadCancel(e))), User(StoreCancel(e))), User(Forget(e)))
  }

  lemma StartsAre(w: World, id: string, prepared: bool)
    requires w.ledger.up && Filed(w) && w.starter.Free?
    ensures Filed(StartSteps(w, id, prepared))
    ensures Enabled(w, User(LoadStart(id))) <==>
              id in w.tasks && id !in w.runs && w.tasks[id].current && w.now < w.tasks[id].grant.expiresAt
    ensures StartSteps(w, id, prepared) ==
              if prepared && Enabled(w, User(LoadStart(id))) then
                var t := w.tasks[id].(status := IsRunning);
                w.(tasks := w.tasks[id := t], runs := w.runs[id := Run(t, false)])
              else w
  {
    hide Step, Enabled, Filed;
    LoadStartIs(w, id);
    FiledId(w, id);
    Renewal.StepIs(w, User(LoadStart(id)));
    var loaded := Step(w, User(LoadStart(id)));
    FiledStep(w, User(LoadStart(id)));
    FiledStep(loaded, User(if prepared then StoreStart else DropStart));
    if Enabled(w, User(LoadStart(id))) {
      StarterGoesOn(loaded, w.tasks[id]);
    } else {
      NothingToStore(w);
    }
  }

  lemma NoStart(w: World, id: string, prepared: bool)
    requires w.ledger.up && Filed(w) && w.starter.Free? && (id !in w.tasks || id in w.runs)
    ensures StartSteps(w, id, prepared) == w
  {
    hide Filed, Step, StartSteps, Enabled;
    StartsAre(w, id, prepared);
  }

  /** The renewal as it is when it has read and checked. */
  ghost function Checked(w: World, e: nat, id: string): World {
    Step(Step(w, User(LoadResume(e, id))), User(CheckResume(e)))
  }

  lemma CheckedIs(w: World, e: nat, id: string)
    requires w.ledger.up && Filed(w) && e !in w.errands
    ensures Filed(Checked(w, e, id))
    ensures Checked(w, e, id) ==
              if id in w.tasks then
                w.(errands := w.errands[e := Resuming(w.tasks[id], forall r | r in ResultsOf(w.ledger.rows, id) :: !Open(r))])
              else w
  {
    hide Step, Enabled, Apply, Filed, ResultsOf, Open;
    var read := Step(w, User(LoadResume(e, id)));
    FiledStep(w, User(LoadResume(e, id)));
    FiledStep(read, User(CheckResume(e)));
    FiledId(w, id);
    ReadIs(w, e, id);
    if id in w.tasks {
      CheckIs(read, e, w.tasks[id]);
    } else {
      NoErrand(w, e, 0);
    }
  }

  lemma RenewalIs(w: World, e: nat, id: string, g: nat)
    requires w.ledger.up && Filed(w) && e !in w.errands && g !in w.grants
    ensures Enabled(Checked(w, e, id), User(StoreResume(e, g))) <==>
              && id in w.tasks && (forall r | r in ResultsOf(w.ledger.rows, id) :: !Open(r))
              && (forall h | h in w.tasks[id].grant.hostIds :: h in w.hosts)
    ensures Enabled(Checked(w, e, id), User(StoreResume(e, g))) ==>
              Apply(Checked(w, e, id), User(StoreResume(e, g)))
              == w.(tasks := w.tasks[id := Renewed(w, w.tasks[id], g)], grants := w.grants + {g})
  {
    hide Step, Enabled, Apply, Filed, ResultsOf, Open, Renewed, Checked;
    var checked := Checked(w, e, id);
    CheckedIs(w, e, id);
    FiledId(w, id);
    if id in w.tasks {
      StoreIs(checked, e, g, w.tasks[id], checked.errands[e].settled);
      assert checked.errands - {e} == w.errands;
      RenewedElsewhere(checked, w, w.tasks[id], g);
    } else {
      NoErrand(w, e, g);
    }
  }

  lemma RenewalFiled(w: World, e: nat, id: string, g: nat)
    requires w.ledger.up && Filed(w) && e !in w.errands && Enabled(Checked(w, e, id), User(StoreResume(e, g)))
    ensures Filed(Apply(Checked(w, e, id), User(StoreResume(e, g))))
  {
    hide Step, Enabled, Apply, Filed, Checked;
    CheckedIs(w, e, id);
    FiledApply(Checked(w, e, id), User(StoreResume(e, g)));
  }

  lemma SubmitStepsAre(w: World, e: nat, id: string)
    ensures SubmitSteps(w, e, id)
            == Step(Step(Step(Step(w, User(Look(e, id))), User(LoadSubmit(e))), User(StoreSubmit(e))), User(Forget(e)))
    ensures CancelSteps(w, e, id)
            == Step(Step(Step(Step(w, User(Look(e, id))), User(LoadCancel(e))), User(StoreCancel(e))), User(Forget(e)))
  {
    hide Step;
  }

  lemma ComesAndGoes(errands: map<nat, Errand>, e: nat, x: Errand, y: Errand)
    requires e !in errands
    ensures errands[e := x] - {e} == errands && errands[e := x][e := y] - {e} == errands
  {
  }

  lemma SameTask(tasks: map<string, Task>, id: string)
    ensures id in tasks ==> tasks[id := tasks[id]] == tasks
  {
  }

  /** Whoever sees a run of the task gets no further. */
  lemma SeesRun(w: World, e: nat, id: string)
    requires e !in w.errands && id in w.runs
    ensures SubmitSteps(w, e, id) == w && CancelSteps(w, e, id) == w
  {
    hide Enabled, Apply;
    assert !Enabled(w, User(Look(e, id))) && !Enabled(w, User(LoadSubmit(e))) && !Enabled(w, User(StoreSubmit(e)))
           && !Enabled(w, User(LoadCancel(e))) && !Enabled(w, User(StoreCancel(e))) && !Enabled(w, User(Forget(e))) by {
      NothingOpen(w, e, id);
    }
  }

  lemma NothingOpen(w: World, e: nat, id: string)
    requires e !in w.errands && id in w.runs
    ensures !Enabled(w, User(Look(e, id))) && !Enabled(w, User(LoadSubmit(e))) && !Enabled(w, User(StoreSubmit(e)))
            && !Enabled(w, User(LoadCancel(e))) && !Enabled(w, User(StoreCancel(e))) && !Enabled(w, User(Forget(e)))
  {
    hide L.Apply, L.Enabled, Apply, Serve, Renewed, Judgement, Cleared, NeedsUser, ResultsOf, Busy;
  }

  /** A submission alone leaves the record as it is, but for its text. */
  lemma SubmissionIs(w: World, e: nat, id: string)
    requires w.ledger.up && Filed(w) && w.starter.Free? && e !in w.errands
    ensures SubmitSteps(w, e, id) == w
  {
    hide *;
    if id in w.runs {
      SeesRun(w, e, id);
      return;
    }
    SubmitStepsAre(w, e, id);
    FiledId(w, id);
    LookIs(w, e, id);
    SameTask(w.tasks, id);
    var looked := w.(errands := w.errands[e := Looking(id)]);
    LookedSubmits(looked, e, id);
    if id in w.tasks && (w.tasks[id].status.AwaitingApproval? || w.tasks[id].status.Interrupted?) {
      var t := w.tasks[id];
      ComesAndGoes(w.errands, e, Looking(id), Submitting(t));
      SubmitStored(w.(errands := w.errands[e := Looking(id)][e := Submitting(t)]), e);
    } else {
      ComesAndGoes(w.errands, e, Looking(id), Looking(id));
      SubmitStored(looked, e);
    }
  }

  lemma CancellationIs(w: World, e: nat, id: string)
    requires w.ledger.up && Filed(w) && w.starter.Free? && e !in w.errands
    ensures CancelSteps(w, e, id) ==
              if id in w.tasks && id !in w.runs && (w.tasks[id].status.AwaitingApproval? || w.tasks[id].status.IsReady?) then
                w.(tasks := w.tasks[id := w.tasks[id].(status := Interrupted,
                                                       grant := w.tasks[id].grant.(expiresAt := NEVER))])
              else w
  {
    hide *;
    if id in w.runs {
      SeesRun(w, e, id);
      return;
    }
    SubmitStepsAre(w, e, id);
    FiledId(w, id);
    LookIs(w, e, id);
    var looked := w.(errands := w.errands[e := Looking(id)]);
    LookedSubmits(looked, e, id);
    if id in w.tasks && (w.tasks[id].status.AwaitingApproval? || w.tasks[id].status.IsReady?) {
      var t := w.tasks[id];
      ComesAndGoes(w.errands, e, Looking(id), Cancelling(t));
      CancelStored(w.(errands := w.errands[e := Looking(id)][e := Cancelling(t)]), e);
    } else {
      ComesAndGoes(w.errands, e, Looking(id), Looking(id));
      CancelStored(looked, e);
    }
  }

  lemma CancellationFiled(w: World, e: nat, id: string)
    requires Filed(w)
    ensures Filed(CancelSteps(w, e, id))
  {
    hide *;
    SubmitStepsAre(w, e, id);
    var looked := Step(w, User(Look(e, id)));
    var read := Step(looked, User(LoadCancel(e)));
    FiledStep(w, User(Look(e, id)));
    FiledStep(looked, User(LoadCancel(e)));
    FiledStep(read, User(StoreCancel(e)));
    FiledStep(Step(read, User(StoreCancel(e))), User(Forget(e)));
  }

  lemma DecisionIs(w: World, e: nat, r: Request, accept: bool)
    requires w.ledger.up && Filed(w) && e !in w.errands
    ensures r in w.approvals ==>
              var weighed := Step(w, User(Weigh(e, r, accept)));
              var id := r.taskId;
              && (Enabled(weighed, User(CheckDecision(e))) <==>
                    && id in w.tasks && w.tasks[id].current && w.approvals[r].grantId == w.tasks[id].grant.id
                    && w.now < w.tasks[id].grant.expiresAt)
              && (Enabled(weighed, User(CheckDecision(e))) ==>
                    var v := Step(Step(weighed, User(CheckDecision(e))), User(StoreDecision(e)));
                    Filed(v) && v == w.(approvals := w.approvals[r := w.approvals[r].(approved := accept, decided := true)]))
  {
    hide Step, Enabled, Filed;
    FiledApproval(w, r);
    if r in w.approvals {
      WeighIs(w, e, r, accept);
      var weighed := Step(w, User(Weigh(e, r, accept)));
      CompareIs(weighed, e, r, accept, w.approvals[r]);
      var compared := Step(weighed, User(CheckDecision(e)));
      FiledStep(w, User(Weigh(e, r, accept)));
      FiledStep(weighed, User(CheckDecision(e)));
      FiledStep(compared, User(StoreDecision(e)));
      if Enabled(weighed, User(CheckDecision(e))) {
        DecideIs(compared, e, r, accept, w.approvals[r]);
        assert compared.errands - {e} == w.errands;
      }
    }
  }

  /** The identities after the named hosts were looked up one after the other. */
  function Identified(identities: map<string, Host>, hosts: map<string, Host>, ids: seq<string>): map<string, Host> {
    if ids == [] then identities else
    var rest := Identified(identities, hosts, ids[..|ids| - 1]);
    var id := ids[|ids| - 1];
    if id in hosts then rest[id := hosts[id]] else rest
  }

  lemma {:induction false} IdentifiedIs(identities: map<string, Host>, hosts: map<string, Host>, ids: seq<string>)
    ensures var named := set i | 0 <= i < |ids| && ids[i] in hosts :: ids[i];
            Identified(identities, hosts, ids) == identities + map h | h in named :: hosts[h]
  {
    if ids != [] {
      IdentifiedIs(identities, hosts, ids[..|ids| - 1]);
      var n := |ids| - 1;
      assert (set i | 0 <= i < |ids| && ids[i] in hosts :: ids[i])
             == (set i | 0 <= i < n && ids[..n][i] in hosts :: ids[..n][i]) + (if ids[n] in hosts then {ids[n]} else {});
    }
  }

  lemma RenewedIs(w: World, t: Task, g: nat)
    ensures Renewed(w, t, g) ==
              t.(status := if t.current then t.status else Interrupted, current := true,
                 grant := t.grant.(id := g, expiresAt := w.now + EIGHT_HOURS,
                                   identities := Identified(t.grant.identities, w.hosts, t.grant.hostIds)))
  {
    IdentifiedIs(t.grant.identities, w.hosts, t.grant.hostIds);
  }
}
