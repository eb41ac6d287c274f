/** What single steps of the user interface do to the world. */
module WorldSteps {
  import L = Ledger
  import opened Policy
  import opened StoreObject
  import opened Verification
  import opened World

  lemma LoadStartIs(w: World, id: string)
    requires w.ledger.up && w.starter.Free?
    ensures Enabled(w, User(LoadStart(id))) <==>
              id in w.tasks && id !in w.runs && w.tasks[id].current && w.now < w.tasks[id].grant.expiresAt
    ensures Enabled(w, User(LoadStart(id))) ==> Step(w, User(LoadStart(id))) == w.(starter := Starting(w.tasks[id]))
  {
    hide Renewed, L.Apply, L.Enabled;
  }

  lemma StarterGoesOn(w: World, t: Task)
    requires w.ledger.up && w.starter == Starting(t)
    ensures Step(w, User(StoreStart))
            == w.(tasks := w.tasks[t.id := t.(status := IsRunning)], starter := Free,
                  runs := w.runs[t.id := Run(t.(status := IsRunning), false)])
    ensures Step(w, User(DropStart)) == w.(starter := Free)
  {
    hide Renewed, L.Apply, L.Enabled;
  }

  lemma NothingToStore(w: World)
    requires w.starter.Free?
    ensures Step(w, User(StoreStart)) == w && Step(w, User(DropStart)) == w
  {
    hide Renewed, L.Apply, L.Enabled;
  }

  lemma ReadIs(w: World, e: nat, id: string)
    requires w.ledger.up && e !in w.errands
    ensures Step(w, User(LoadResume(e, id)))
            == if id in w.tasks then w.(errands := w.errands[e := Resuming(w.tasks[id], false)]) else w
  {
    hide Renewed, L.Apply, L.Enabled;
  }

  lemma CheckIs(w: World, e: nat, t: Task)
    requires w.ledger.up && e in w.errands && w.errands[e] == Resuming(t, false)
    ensures Step(w, User(CheckResume(e)))
            == if forall r | r in ResultsOf(w.ledger.rows, t.id) :: !Open(r)
               then w.(errands := w.errands[e := Resuming(t, true)]) else w
  {
    hide Renewed, L.Apply, L.Enabled, ResultsOf;
  }

  lemma StoreIs(w: World, e: nat, g: nat, t: Task, settled: bool)
    requires w.ledger.up && e in w.errands && w.errands[e] == Resuming(t, settled) && g !in w.grants
    ensures Enabled(w, User(StoreResume(e, g))) <==> settled && forall h | h in t.grant.hostIds :: h in w.hosts
    ensures Enabled(w, User(StoreResume(e, g))) ==>
              Apply(w, User(StoreResume(e, g)))
              == w.(tasks := w.tasks[t.id := Renewed(w, t, g)], grants := w.grants + {g}, errands := w.errands - {e})
  {
    hide Renewed, L.Apply, L.Enabled;
  }

  lemma NoErrand(w: World, e: nat, g: nat)
    requires e !in w.errands
    ensures Step(w, User(CheckResume(e))) == w && !Enabled(w, User(StoreResume(e, g)))
  {
    hide Renewed, L.Apply, L.Enabled;
  }

  lemma LookIs(w: World, e: nat, id: string)
    requires w.ledger.up && w.starter.Free? && e !in w.errands && id !in w.runs
    ensures Step(w, User(Look(e, id))) == w.(errands := w.errands[e := Looking(id)])
  {
    hide Renewed, L.Apply, L.Enabled;
  }

  lemma LookedSubmits(w: World, e: nat, id: string)
    requires w.ledger.up && e in w.errands && w.errands[e] == Looking(id)
    ensures Step(w, User(LoadSubmit(e)))
            == if id in w.tasks && (w.tasks[id].status.AwaitingApproval? || w.tasks[id].status.Interrupted?)
               then w.(errands := w.errands[e := Submitting(w.tasks[id])]) else w
    ensures Step(w, User(LoadCancel(e)))
            == if id in w.tasks && (w.tasks[id].status.AwaitingApproval? || w.tasks[id].status.IsReady?)
               then w.(errands := w.errands[e := Cancelling(w.tasks[id])]) else w
  {
    hide Renewed, L.Apply, L.Enabled;
  }

  lemma SubmitStored(w: World, e: nat)
    requires w.ledger.up && e in w.errands && (w.errands[e].Looking? || w.errands[e].Submitting?)
    ensures Step(Step(w, User(StoreSubmit(e))), User(Forget(e)))
            == if w.errands[e].Looking? then w.(errands := w.errands - {e})
               else w.(errands := w.errands - {e}, tasks := w.tasks[w.errands[e].task.id := w.errands[e].task])
  {
    hide Renewed, L.Apply, L.Enabled;
  }

  lemma CancelStored(w: World, e: nat)
    requires w.ledger.up && e in w.errands && (w.errands[e].Looking? || w.errands[e].Cancelling?)
    ensures Step(Step(w, User(StoreCancel(e))), User(Forget(e)))
            == if w.errands[e].Looking? then w.(errands := w.errands - {e})
               else
                 var t := w.errands[e].task;
                 w.(errands := w.errands - {e},
                    tasks := w.tasks[t.id := t.(status := Interrupted, grant := t.grant.(expiresAt := NEVER))])
  {
    hide Renewed, L.Apply, L.Enabled;
  }

  lemma WeighIs(w: World, e: nat, r: Request, accept: bool)
    requires w.ledger.up && e !in w.errands && r in w.approvals
    ensures Step(w, User(Weigh(e, r, accept))) == w.(errands := w.errands[e := Weighing(r, accept, w.approvals[r])])
  {
    hide Renewed, L.Apply, L.Enabled;
  }

  lemma CompareIs(w: World, e: nat, r: Request, accept: bool, a: Approval)
    requires w.ledger.up && e in w.errands && w.errands[e] == Weighing(r, accept, a)
    ensures var id := a.request.taskId;
            Enabled(w, User(CheckDecision(e))) <==>
              && id in w.tasks && w.tasks[id].current && a.grantId == w.tasks[id].grant.id
              && w.now < w.tasks[id].grant.expiresAt
    ensures Enabled(w, User(CheckDecision(e))) ==>
              Step(w, User(CheckDecision(e))) == w.(errands := w.errands[e := Deciding(r, accept, a)])
  {
    hide Renewed, L.Apply, L.Enabled;
  }

  lemma DecideIs(w: World, e: nat, r: Request, accept: bool, a: Approval)
    requires w.ledger.up && e in w.errands && w.errands[e] == Deciding(r, accept, a)
    ensures Step(w, User(StoreDecision(e)))
            == w.(approvals := w.approvals[r := a.(approved := accept, decided := true)], errands := w.errands - {e})
  {
    hide Renewed, L.Apply, L.Enabled;
  }

  lemma RenewedElsewhere(w: World, v: World, t: Task, g: nat)
    requires w.hosts == v.hosts && w.now == v.now
    ensures Renewed(w, t, g) == Renewed(v, t, g)
  {
  }
}
