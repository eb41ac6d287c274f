/** When renewing a grant voids what was accepted under an older one. */
module Renewal {
  import L = Ledger
  import opened Policy
  import opened StoreObject
  import opened World
  import opened Authority

  // ------------------------------------------------------------- older grants

  /** A grant that was not ended by cancelling or recovery. */
  predicate Live(t: Task) { t.grant.expiresAt > NEVER }

  predicate Dated(t: Task, past: set<nat>) { Live(t) && t.grant.id in past }

  /** The task, or the run of it, has a grant of the past. */
  predicate InForce(w: World, id: string, past: set<nat>) {
    (id in w.tasks && Dated(w.tasks[id], past)) || (id in w.runs && Dated(w.runs[id].task, past))
  }

  /** A copy of the task that a start or a submission is going to store. */
  predicate ToStore(w: World, id: string, t: Task) {
    t.id == id && (w.starter == Starting(t) || exists e :: e in w.errands && w.errands[e] == Submitting(t))
  }

  /** No copy that is used or will be stored has a grant of the past. */
  ghost predicate Clean(w: World, id: string, past: set<nat>) {
    && id in w.tasks && past <= w.grants && !InForce(w, id, past)
    && forall t | ToStore(w, id, t) :: !Dated(t, past)
  }

  lemma CleanStarter(w: World, id: string, past: set<nat>)
    requires Clean(w, id, past)
    ensures w.starter.Starting? && w.starter.task.id == id ==> !Dated(w.starter.task, past)
  {
    assert w.starter.Starting? && w.starter.task.id == id ==> ToStore(w, id, w.starter.task);
  }

  lemma CleanSubmission(w: World, id: string, past: set<nat>, e: nat)
    requires Clean(w, id, past)
    ensures e in w.errands && w.errands[e].Submitting? && w.errands[e].task.id == id ==> !Dated(w.errands[e].task, past)
  {
    assert e in w.errands && w.errands[e].Submitting? && w.errands[e].task.id == id ==> ToStore(w, id, w.errands[e].task);
  }

  /** A submission there is was there before, or has just read the task. */
  lemma ServedSubmitting(w: World, u: UserStep)
    requires CanServe(w, u) && GoesOn(u) && Serve(w, u).errands[u.errand].Submitting?
    ensures u.errand in w.errands && w.errands[u.errand].Looking? && w.errands[u.errand].id in w.tasks
    ensures Serve(w, u).errands[u.errand] == Submitting(w.tasks[w.errands[u.errand].id])
  {
    hide Renewed;
  }

  /** Which copy is stored in the end. */
  lemma ServedTasks(w: World, u: UserStep)
    requires CanServe(w, u)
    ensures var v := Serve(w, u);
            && (u.LoadStart? ==> u.id in w.tasks && v.starter == Starting(w.tasks[u.id]))
            && (u.DropStart? ==> v.starter == Free)
            && (u.StoreStart? ==>
                  && w.starter.Starting? && v.starter == Free
                  && var t := w.starter.task.(status := IsRunning);
                     v.tasks == w.tasks[t.id := t] && v.runs == w.runs[t.id := Run(t, false)])
  {
    hide Renewed;
  }

  lemma StoredByErrand(w: World, u: UserStep)
    requires CanServe(w, u) && (u.StoreResume? || u.StoreSubmit? || u.StoreCancel?)
    ensures u.errand in w.errands
    ensures var (v, x) := (Serve(w, u), w.errands[u.errand]);
            && (u.StoreSubmit? ==> x.Submitting? && v.tasks == w.tasks[x.task.id := x.task])
            && (u.StoreCancel? ==>
                  && x.Cancelling?
                  && var t := x.task.(status := Interrupted, grant := x.task.grant.(expiresAt := NEVER));
                     v.tasks == w.tasks[t.id := t])
            && (u.StoreResume? ==>
                  && x.Resuming? && u.grant !in w.grants && v.grants == w.grants + {u.grant}
                  && v.tasks == w.tasks[x.task.id := Renewed(w, x.task, u.grant)])
  {
    hide Renewed;
  }

  lemma CleanServe(w: World, u: UserStep, id: string, past: set<nat>)
    requires Filed(w) && Clean(w, id, past) && CanServe(w, u)
    ensures Clean(Serve(w, u), id, past)
  {
    hide Filed, Serve, CanServe, Renewed, Clean, ToStore, InForce;
    CleanMeans(w, id, past);
    CleanStarter(w, id, past);
    var v := Serve(w, u);
    ServedErrands(w, u);
    ServedRecords(w, u);
    ServedTasks(w, u);
    if u.LoadStart? {
      FiledId(w, u.id);
    }
    CleanTask(w, id, past);
    FiledId(w, id);
    var stored := w.tasks[id];
    if u.StoreResume? || u.StoreSubmit? || u.StoreCancel? {
      StoredByErrand(w, u);
      CleanSubmission(w, id, past, u.errand);
      stored := v.tasks[w.errands[u.errand].task.id];
      if u.StoreResume? {
        RenewedKeeps(w, w.errands[u.errand].task, u.grant);
      }
    }
    CleanRecords(w, v, u, id, past, stored);
    forall t | ToStore(v, id, t)
      ensures !Dated(t, past)
    {
      CopiesServed(w, u, id, past, t);
    }
    CleanMeans(v, id, past);
  }

  lemma CleanMeans(w: World, id: string, past: set<nat>)
    ensures Clean(w, id, past) <==>
              && id in w.tasks && past <= w.grants && !InForce(w, id, past)
              && forall t | ToStore(w, id, t) :: !Dated(t, past)
  {
    hide ToStore, Dated;
  }

  /** The records that are stored hold no grant of the past. */
  lemma CleanRecords(w: World, v: World, u: UserStep, id: string, past: set<nat>, stored: Task)
    requires id in w.tasks && past <= w.grants && !InForce(w, id, past) && w.grants <= v.grants
    requires w.starter.Starting? && w.starter.task.id == id ==> !Dated(w.starter.task, past)
    requires u.StoreStart? ==>
               && w.starter.Starting?
               && var t := w.starter.task.(status := IsRunning);
                  v.tasks == w.tasks[t.id := t] && v.runs == w.runs[t.id := Run(t, false)]
    requires u.StoreStart? || v.runs == w.runs
    requires u.StoreStart? || v.tasks == w.tasks || v.tasks == w.tasks[stored.id := stored]
    requires stored.id == id ==> !Dated(stored, past)
    ensures id in v.tasks && past <= v.grants && !InForce(v, id, past)
  {
  }

  /** No copy that is new is of the past. */
  lemma CopiesServed(w: World, u: UserStep, id: string, past: set<nat>, t: Task)
    requires Filed(w) && Clean(w, id, past) && CanServe(w, u) && ToStore(Serve(w, u), id, t)
    ensures !Dated(t, past)
  {
    hide Filed, Serve, CanServe, Renewed, Dated, Clean;
    CleanMeans(w, id, past);
    CleanTask(w, id, past);
    var v := Serve(w, u);
    ServedErrands(w, u);
    ServedRecords(w, u);
    ServedTasks(w, u);
    if v.starter == Starting(t) {
      if u.LoadStart? {
        FiledId(w, u.id);
      } else {
        assert ToStore(w, id, t);
      }
    } else {
      var e :| e in v.errands && v.errands[e] == Submitting(t);
      if e in w.errands && w.errands[e] == Submitting(t) {
        assert ToStore(w, id, t);
      } else {
        ServedSubmitting(w, u);
        FiledId(w, w.errands[e].id);
      }
    }
  }

  lemma CleanTask(w: World, id: string, past: set<nat>)
    requires Clean(w, id, past)
    ensures id in w.tasks && !Dated(w.tasks[id], past)
  {
  }

  lemma CleanStep(w: World, a: Action, id: string, past: set<nat>)
    requires Filed(w) && Clean(w, id, past)
    ensures Clean(Step(w, a), id, past)
  {
    hide Filed, Enabled, Apply, Clean;
    if Enabled(w, a) {
      if a.User? {
        Served(w, a.ui);
        CleanServe(w, a.ui, id, past);
      } else {
        NotServed(w, a);
        CleanOther(w, a, id, past);
      }
    }
  }

  lemma CleanOther(w: World, a: Action, id: string, past: set<nat>)
    requires Filed(w) && Clean(w, id, past) && Enabled(w, a) && !a.User?
    ensures Clean(Apply(w, a), id, past)
  {
    hide Filed, L.Apply, L.Enabled, Cleared, NeedsUser, Judgement, Ended, Verification.Acceptable, ResultsOf, HostOf, Busy,
      Plain, Serve, CanServe, ToStore;
    var v := Apply(w, a);
    NotServed(w, a);
    FiledId(w, id);
    match a
    case EndRun(other, _) => FiledId(w, other); SameCopies(w, v, id);
    case Crash => SameCopies(w, v, id);
    case Create(_) => SameCopies(w, v, id);
    case _ => SameCopies(w, v, id);
  }

  lemma SameCopies(w: World, v: World, id: string)
    requires (v.errands == w.errands || v.errands == map[]) && (v.starter == w.starter || v.starter == Free)
    ensures forall t | ToStore(v, id, t) :: ToStore(w, id, t)
  {
  }

  lemma {:induction false} StaysClean(w: World, more: seq<Action>, id: string, past: set<nat>)
    requires Filed(w) && Clean(w, id, past)
    ensures Filed(Onwards(w, more)) && Clean(Onwards(w, more), id, past)
  {
    hide Filed, Clean, Step;
    if more != [] {
      var before := Onwards(w, more[..|more| - 1]);
      StaysClean(w, more[..|more| - 1], id, past);
      FiledStep(before, more[|more| - 1]);
      CleanStep(before, more[|more| - 1], id, past);
    }
  }

  // -------------------------------------------------------- the exact condition

  /** A run works with the task, or a start or a submission will store the copy it has read. */
  ghost predicate Held(w: World, id: string) {
    (id in w.runs && Live(w.runs[id].task)) || exists t :: ToStore(w, id, t) && Live(t)
  }

  /** In no history from here on has the task, or a run of it, a grant of the past. */
  ghost predicate Voided(w: World, id: string, past: set<nat>) {
    forall more :: !InForce(Onwards(w, more), id, past)
  }

  /** The world in which the renewed task has just been stored. */
  lemma ResumedIs(w: World, e: nat, g: nat)
    requires Filed(w) && Enabled(w, User(StoreResume(e, g)))
    ensures e in w.errands && w.errands[e].Resuming?
    ensures var v := Apply(w, User(StoreResume(e, g)));
            var id := w.errands[e].task.id;
            && Filed(v) && v.ledger == w.ledger && w.ledger.up && v.runs == w.runs && v.starter == w.starter
            && id in v.tasks && v.tasks[id].grant.id == g && g !in w.grants && w.grants <= v.grants
            && v.errands == w.errands - {e}
  {
    hide Filed, Enabled, Apply, CanServe, Serve, Renewed;
    Served(w, StoreResume(e, g));
    StoredByErrand(w, StoreResume(e, g));
    ServedRecords(w, StoreResume(e, g));
    ServedErrands(w, StoreResume(e, g));
    ServedLedger(w, StoreResume(e, g));
    RenewedKeeps(w, w.errands[e].task, g);
    FiledStep(w, User(StoreResume(e, g)));
    StepIs(w, User(StoreResume(e, g)));
  }

  lemma ServedLedger(w: World, u: UserStep)
    requires CanServe(w, u)
    ensures Serve(w, u).ledger == w.ledger
  {
    hide CanServe, Renewed;
    ServeKeepsCalls(w, u);
  }

  lemma StepIs(w: World, a: Action)
    ensures Step(w, a) == if Enabled(w, a) then Apply(w, a) else w
  {
  }

  /** The copies survive the renewal, and their grants are of the past. */
  lemma HeldIsDated(w: World, e: nat, g: nat)
    requires Filed(w) && Enabled(w, User(StoreResume(e, g)))
    ensures var v := Apply(w, User(StoreResume(e, g)));
            var id := w.errands[e].task.id;
            && Held(v, id) == Held(w, id)
            && (!Held(w, id) ==> Clean(v, id, w.grants))
            && (id in v.runs ==> v.runs[id].task.grant.id in w.grants)
            && forall t | ToStore(v, id, t) :: t.grant.id in w.grants
  {
    hide Filed, Enabled, Apply;
    ResumedIs(w, e, g);
    var v := Apply(w, User(StoreResume(e, g)));
    var id := w.errands[e].task.id;
    forall t
      ensures ToStore(v, id, t) <==> ToStore(w, id, t)
    {
      SameSubmissions(w, v, e, id, t);
    }
    assert (exists t :: ToStore(v, id, t) && Live(t)) <==> (exists t :: ToStore(w, id, t) && Live(t));
    FiledCopies(w, id);
  }

  lemma SameSubmissions(w: World, v: World, e: nat, id: string, t: Task)
    requires e in w.errands && !w.errands[e].Submitting? && v.errands == w.errands - {e} && v.starter == w.starter
    ensures ToStore(v, id, t) <==> ToStore(w, id, t)
  {
    if ToStore(w, id, t) && w.starter != Starting(t) {
      var d :| d in w.errands && w.errands[d] == Submitting(t);
      assert d in v.errands && v.errands[d] == Submitting(t);
    }
  }

  lemma FiledCopies(w: World, id: string)
    requires Filed(w)
    ensures id in w.runs ==> w.runs[id].task.grant.id in w.grants
    ensures forall t | ToStore(w, id, t) :: t.grant.id in w.grants
  {
    hide TasksOk, ApprovalsOk, AttachedOk;
    forall e | e in w.errands
      ensures ErrandOk(w.tasks.Keys, w.grants, w.errands[e])
    {
    }
  }

  // ------------------------------------------------------- how it comes back

  lemma {:induction false} OnwardsJoin(w: World, a: seq<Action>, b: seq<Action>)
    ensures Onwards(w, a + b) == Onwards(Onwards(w, a), b)
    decreases |b|
  {
    hide Step;
    if b == [] {
      assert a + b == a;
    } else {
      assert (a + b)[..|a + b| - 1] == a + b[..|b| - 1];
      OnwardsJoin(w, a, b[..|b| - 1]);
    }
  }

  lemma OnwardsOne(w: World, a: Action)
    ensures Onwards(w, [a]) == Step(w, a)
  {
    hide Step;
    assert [a][..0] == [];
    assert Onwards(w, []) == w;
  }

  /** A step of a call changes the ledger only. */
  lemma DoStep(w: World, b: L.Action)
    requires Plain(b) && L.Enabled(w.ledger, b)
    ensures Step(w, Do(b)) == w.(ledger := L.Apply(w.ledger, b))
  {
    hide L.Enabled, L.Apply, Plain;
  }

  lemma GiveUp(s: L.Ledger, c: nat)
    requires s.up && c in s.calls && !s.calls[c].phase.Leaving?
    ensures L.Enabled(s, L.Abandon(c))
    ensures var t := L.Apply(s, L.Abandon(c));
            && t.up && if s.calls[c].phase.Waiting? then t.calls == s.calls - {c}
                       else c in t.calls && t.calls[c].phase.Leaving? && t.calls - {c} == s.calls - {c}
  {
  }

  lemma GoAway(s: L.Ledger, c: nat)
    requires s.up && c in s.calls && s.calls[c].phase.Leaving?
    ensures L.Enabled(s, L.Release(c))
    ensures L.Apply(s, L.Release(c)).up && L.Apply(s, L.Release(c)).calls == s.calls - {c}
  {
  }

  lemma Released(w: World, c: nat)
    requires w.ledger.up && c in w.ledger.calls && w.ledger.calls[c].phase.Leaving?
    ensures var x := Onwards(w, [Do(L.Release(c))]);
            x == w.(ledger := x.ledger) && x.ledger.up && x.ledger.calls == w.ledger.calls - {c}
  {
    hide Step, Onwards, L.Apply, L.Enabled;
    GoAway(w.ledger, c);
    DoStep(w, L.Release(c));
    OnwardsOne(w, Do(L.Release(c)));
  }

  /** Any call can be given up. */
  lemma CallEnds(w: World, c: nat) returns (more: seq<Action>)
    requires w.ledger.up && c in w.ledger.calls
    ensures var x := Onwards(w, more);
            x == w.(ledger := x.ledger) && x.ledger.up && x.ledger.calls == w.ledger.calls - {c}
  {
    hide Step, Onwards, L.Apply, L.Enabled;
    if w.ledger.calls[c].phase.Leaving? {
      more := [Do(L.Release(c))];
      Released(w, c);
      return;
    }
    var first := [Do(L.Abandon(c))];
    GiveUp(w.ledger, c);
    DoStep(w, L.Abandon(c));
    OnwardsOne(w, first[0]);
    var x := Onwards(w, first);
    if c in x.ledger.calls {
      Released(x, c);
      OnwardsJoin(w, first, [Do(L.Release(c))]);
      more := first + [Do(L.Release(c))];
    } else {
      more := first;
    }
  }

  lemma {:induction false} Quiesce(w: World, id: string) returns (more: seq<Action>)
    requires w.ledger.up
    ensures var x := Onwards(w, more); x == w.(ledger := x.ledger) && x.ledger.up && !Busy(x, id)
    decreases |w.ledger.calls|
  {
    if Busy(w, id) {
      var c :| c in w.ledger.calls && w.ledger.calls[c].request.taskId == id;
      var first := CallEnds(w, c);
      Fewer(w.ledger.calls, c);
      var rest := Quiesce(Onwards(w, first), id);
      OnwardsJoin(w, first, rest);
      more := first + rest;
    } else {
      more := [];
    }
  }

  lemma Fewer<V>(m: map<nat, V>, c: nat)
    requires c in m
    ensures |m - {c}| < |m|
  {
    assert (m - {c}).Keys == m.Keys - {c};
    assert |(m - {c}).Keys| == |m - {c}|;
  }

  /** The end of a run stores the copy it began with. */
  lemma RunStores(w: World, id: string) returns (more: seq<Action>)
    requires Filed(w) && w.ledger.up && id in w.runs
    ensures var x := Onwards(w, more); id in x.tasks && x.tasks[id].grant == w.runs[id].task.grant
  {
    hide Filed, Step, Busy;
    var quiet := Quiesce(w, id);
    var x := Onwards(w, quiet);
    var free := [User(DropStart)];
    OnwardsOne(x, User(DropStart));
    Dropped(x);
    var y := Step(x, User(DropStart));
    SameBusy(x, y, id);
    OnwardsOne(y, EndRun(id, Exited));
    RunEnds(y, id);
    OnwardsJoin(x, free, [EndRun(id, Exited)]);
    OnwardsJoin(w, quiet, free + [EndRun(id, Exited)]);
    more := quiet + (free + [EndRun(id, Exited)]);
  }

  lemma Dropped(w: World)
    requires w.ledger.up
    ensures Step(w, User(DropStart)) == w.(starter := Free)
  {
  }

  lemma SameBusy(w: World, v: World, id: string)
    requires v.ledger == w.ledger
    ensures Busy(v, id) == Busy(w, id)
  {
  }

  lemma RunEnds(w: World, id: string)
    requires w.ledger.up && w.starter.Free? && id in w.runs && !Busy(w, id)
    ensures var x := Step(w, EndRun(id, Exited)); id in x.tasks && x.tasks[id].grant == w.runs[id].task.grant
  {
    hide Busy, Ended, L.Apply, L.Enabled;
  }

  lemma StartStores(w: World, t: Task)
    requires w.ledger.up && w.starter == Starting(t)
    ensures var x := Step(w, User(StoreStart)); t.id in x.tasks && x.tasks[t.id].grant == t.grant
  {
    hide L.Apply, L.Enabled;
  }

  lemma SubmissionStores(w: World, e: nat, t: Task)
    requires w.ledger.up && e in w.errands && w.errands[e] == Submitting(t)
    ensures var x := Step(w, User(StoreSubmit(e))); t.id in x.tasks && x.tasks[t.id].grant == t.grant
  {
    hide L.Apply, L.Enabled;
  }

  /** Whoever holds an older copy can still make it the stored task. */
  lemma OldGrantReturns(w: World, id: string, past: set<nat>) returns (more: seq<Action>)
    requires Filed(w) && w.ledger.up && Held(w, id)
    requires (id in w.runs ==> w.runs[id].task.grant.id in past) && forall t | ToStore(w, id, t) :: t.grant.id in past
    ensures var x := Onwards(w, more); id in x.tasks && Dated(x.tasks[id], past)
  {
    hide Filed, Step;
    if id in w.runs && Live(w.runs[id].task) {
      more := RunStores(w, id);
    } else {
      var t :| ToStore(w, id, t) && Live(t);
      if w.starter == Starting(t) {
        more := [User(StoreStart)];
        StartStores(w, t);
      } else {
        var e :| e in w.errands && w.errands[e] == Submitting(t);
        more := [User(StoreSubmit(e))];
        SubmissionStores(w, e, t);
      }
      OnwardsOne(w, more[0]);
    }
  }

  /**
   Storing a renewed task voids its older grants for ever exactly when no run works with it
   and no start or submission is going to store a copy it has read before.
   */
  lemma RenewalVoidsUnlessHeld(w: World, e: nat, g: nat)
    requires Filed(w) && Enabled(w, User(StoreResume(e, g)))
    ensures var id := w.errands[e].task.id;
            Voided(Apply(w, User(StoreResume(e, g))), id, w.grants) <==> !Held(w, id)
  {
    hide Filed, Apply, Enabled, Held, Clean, ToStore, InForce, Onwards;
    var v := Apply(w, User(StoreResume(e, g)));
    ResumedIs(w, e, g);
    HeldIsDated(w, e, g);
    var id := w.errands[e].task.id;
    if Held(w, id) {
      var more := OldGrantReturns(v, id, w.grants);
      InForceAgain(Onwards(v, more), id, w.grants);
    } else {
      forall more
        ensures !InForce(Onwards(v, more), id, w.grants)
      {
        StaysClean(v, more, id, w.grants);
        CleanMeans(Onwards(v, more), id, w.grants);
      }
    }
  }

  lemma InForceAgain(w: World, id: string, past: set<nat>)
    requires id in w.tasks && Dated(w.tasks[id], past)
    ensures InForce(w, id, past)
  {
  }

  // ---------------------------------------------------------------- histories

  lemma {:induction false} Splits(actions: seq<Action>, n: nat)
    requires n <= |actions|
    ensures After(actions) == Onwards(After(actions[..n]), actions[n..])
    decreases |actions|
  {
    hide Step;
    if n == |actions| {
      assert actions[..n] == actions;
    } else {
      var m := |actions| - 1;
      Splits(actions[..m], n);
      assert actions[..m][..n] == actions[..n] && actions[n..][..m - n] == actions[..m][n..];
      assert actions[n..][m - n] == actions[m];
    }
  }

  lemma {:induction false} GrantsGrow(actions: seq<Action>, d: nat)
    requires d <= |actions|
    ensures After(actions[..d]).grants <= After(actions).grants
    decreases |actions|
  {
    hide Step, Filed;
    if d == |actions| {
      assert actions[..d] == actions;
    } else {
      var m := |actions| - 1;
      GrantsGrow(actions[..m], d);
      assert actions[..m][..d] == actions[..d];
      AlwaysFiled(actions[..m]);
      FiledStep(After(actions[..m]), actions[m]);
    }
  }

  lemma GrantsBetween(actions: seq<Action>, d: nat, n: nat)
    requires d <= n <= |actions|
    ensures After(actions[..d]).grants <= After(actions[..n]).grants
  {
    hide After;
    GrantsGrow(actions[..n], d);
    assert actions[..n][..d] == actions[..d];
  }

  lemma AcceptedUsed(actions: seq<Action>, d: nat, r: Request, grant: nat)
    requires Accepted(actions, d, r, grant)
    ensures d < |actions| && grant in After(actions[..d]).grants
  {
    hide After, Taken, Filed;
    AlwaysFiled(actions[..d]);
    FiledId(After(actions[..d]), r.taskId);
  }

  lemma NextIs(actions: seq<Action>, n: nat)
    requires n < |actions|
    ensures After(actions[..n + 1]) == Step(After(actions[..n]), actions[n])
  {
    hide Step;
    assert actions[..n + 1][..n] == actions[..n];
  }

  /** What is let through works with a grant that is alive. */
  lemma ToolIsLive(w: World, c: nat, id: string, r: Request)
    requires Filed(w) && Enabled(w, Tool(c, id, r))
    ensures id in w.runs && Live(w.runs[id].task)
  {
    hide MayChange, L.Enabled;
  }

  lemma WasTaken(actions: seq<Action>, i: nat, a: Action)
    requires Taken(actions, i, a)
    ensures i < |actions| && actions[i] == a && Enabled(After(actions[..i]), a)
    ensures Step(After(actions[..i]), a) == Apply(After(actions[..i]), a)
  {
    hide After, Enabled, Apply;
  }

  /** After a renewal with no copy held, no earlier decision lets a call of the task through. */
  lemma EarlierDecisionsAreVoid(
      actions: seq<Action>, n: nat, e: nat, g: nat, i: nat, c: nat, id: string, r: Request, d: nat)
    requires Taken(actions, n, User(StoreResume(e, g)))
    requires var w := After(actions[..n]);
             e in w.errands && w.errands[e].Resuming? && w.errands[e].task.id == id && !Held(w, id)
    requires n < i && Taken(actions, i, Tool(c, id, r)) && id in After(actions[..i]).runs
    requires Accepted(actions, d, r, After(actions[..i]).runs[id].task.grant.id)
    ensures n < d
  {
    hide After, Onwards, Filed, Accepted, Held, Clean, Taken, Enabled, Apply, Step;
    WasTaken(actions, n, User(StoreResume(e, g)));
    WasTaken(actions, i, Tool(c, id, r));
    var (w, x) := (After(actions[..n]), After(actions[..i]));
    AlwaysFiled(actions[..n]);
    AlwaysFiled(actions[..i]);
    NextIs(actions, n);
    ResumedIs(w, e, g);
    HeldIsDated(w, e, g);
    StaysClean(After(actions[..n + 1]), actions[..i][n + 1..], id, w.grants);
    Splits(actions[..i], n + 1);
    assert actions[..i][..n + 1] == actions[..n + 1];
    CleanMeans(x, id, w.grants);
    ToolIsLive(x, c, id, r);
    AcceptedUsed(actions, d, r, x.runs[id].task.grant.id);
    if d <= n {
      GrantsBetween(actions, d, n);
    }
  }
}
