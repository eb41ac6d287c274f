/** What runs, renewals, checks and calls go back to, and what recovery and cancelling leave. */
module RunLaws {
  import L = Ledger
  import opened Policy
  import opened StoreObject
  import opened Verification
  import opened World
  import Authority
  import Conduct
  import Completion
  import Paths

  // --------------------------------------------------------- where runs come from

  /** At step `i` a start read the task while none of its runs was under way and its grant was alive. */
  ghost predicate StartedWith(actions: seq<Action>, i: nat, t: Task) {
    && Taken(actions, i, User(LoadStart(t.id)))
    && var w := After(actions[..i]);
       && t.id in w.tasks && w.tasks[t.id] == t && t.id !in w.runs
       && t.current && w.now < t.grant.expiresAt
  }

  /** Runs and the starter change only in the steps of a start and of an end. */
  lemma OthersStartNothing(w: World, a: Action)
    requires Enabled(w, a) && !a.User?
    ensures var v := Apply(w, a);
            && (v.starter == w.starter || v.starter == Free)
            && forall id | id in v.runs :: id in w.runs && v.runs[id].task == w.runs[id].task
  {
    hide Cleared, NeedsUser, Judgement, Ended, Acceptable, ResultsOf, L.Enabled, L.Apply, RecoveredTask, HostOf, Busy,
      CanServe, Serve;
  }

  lemma StartReads(w: World, id: string)
    requires Enabled(w, User(LoadStart(id)))
    ensures id in w.tasks && id !in w.runs && w.tasks[id].current && w.now < w.tasks[id].grant.expiresAt
    ensures Apply(w, User(LoadStart(id))).starter == Starting(w.tasks[id])
    ensures Apply(w, User(LoadStart(id))).runs == w.runs
  {
    hide Renewed, ResultsOf;
  }

  lemma StartStores(w: World)
    requires Enabled(w, User(StoreStart))
    ensures w.starter.Starting?
    ensures var t := w.starter.task;
            Apply(w, User(StoreStart)).runs == w.runs[t.id := Run(t.(status := IsRunning), false)]
            && Apply(w, User(StoreStart)).starter.Free?
  {
    hide Renewed, ResultsOf;
  }

  lemma OtherUserSteps(w: World, u: UserStep)
    requires Enabled(w, User(u)) && !u.LoadStart? && !u.StoreStart?
    ensures var v := Apply(w, User(u)); v.runs == w.runs && (v.starter == w.starter || v.starter == Free)
  {
    hide CanServe, Serve;
    Authority.Served(w, u);
    Authority.ServedRecords(w, u);
    if u.DropStart? {
      DropIs(w);
    }
  }

  lemma DropIs(w: World)
    requires CanServe(w, DropStart)
    ensures Serve(w, DropStart).starter == Free
  {
  }

  lemma NoStartAtFirst(actions: seq<Action>)
    ensures After(actions).starter.Starting? || After(actions).runs != map[] ==> actions != []
  {
  }

  lemma {:induction false} StarterHasRead(actions: seq<Action>) returns (i: nat)
    requires After(actions).starter.Starting?
    ensures StartedWith(actions, i, After(actions).starter.task)
  {
    hide Enabled, Apply, After, StartedWith;
    NoStartAtFirst(actions);
    var n := |actions| - 1;
    var w := After(actions[..n]);
    Authority.LastTaken(actions);
    if Enabled(w, actions[n]) && actions[n].User? && actions[n].ui.LoadStart? {
      i := n;
      JustRead(actions, actions[n].ui.id);
    } else {
      if Enabled(w, actions[n]) {
        StarterStays(w, actions[n]);
      }
      i := StarterHasRead(actions[..n]);
      StartedEarlier(actions, i, w.starter.task);
    }
  }

  lemma JustRead(actions: seq<Action>, id: string)
    requires actions != [] && Taken(actions, |actions| - 1, User(LoadStart(id)))
    ensures After(actions).starter.Starting? && StartedWith(actions, |actions| - 1, After(actions).starter.task)
  {
    hide Enabled, Apply, After, Authority.Filed;
    var n := |actions| - 1;
    Authority.LastTaken(actions);
    StartReads(After(actions[..n]), id);
    Authority.AlwaysFiled(actions[..n]);
    KeyIsId(After(actions[..n]), id);
  }

  lemma KeyIsId(w: World, id: string)
    requires Authority.Filed(w) && id in w.tasks
    ensures w.tasks[id].id == id
  {
    hide Authority.RunsOk, Authority.StarterOk, Authority.ErrandsOk, Authority.ApprovalsOk, Authority.AttachedOk;
  }

  lemma StarterStays(w: World, a: Action)
    requires Enabled(w, a) && !(a.User? && a.ui.LoadStart?) && Apply(w, a).starter.Starting?
    ensures w.starter == Apply(w, a).starter
  {
    hide Enabled, Apply;
    if !a.User? {
      OthersStartNothing(w, a);
    } else if a.ui.StoreStart? {
      StartStores(w);
    } else {
      OtherUserSteps(w, a.ui);
    }
  }

  lemma RunStays(w: World, a: Action, id: string)
    requires Enabled(w, a) && id in Apply(w, a).runs
    requires !(a.User? && a.ui.StoreStart? && w.starter.Starting? && w.starter.task.id == id)
    ensures id in w.runs && w.runs[id].task == Apply(w, a).runs[id].task
  {
    hide Enabled, Apply;
    if !a.User? {
      OthersStartNothing(w, a);
    } else if a.ui.StoreStart? {
      StartStores(w);
    } else if a.ui.LoadStart? {
      StartReads(w, a.ui.id);
    } else {
      OtherUserSteps(w, a.ui);
    }
  }

  /**
   In every history: the copy that a run works with was read by a start, from a task that had no
   run, was made under this version and had a live grant; only its status is new.
   */
  lemma {:induction false} RunHasStarted(actions: seq<Action>, id: string) returns (i: nat, t: Task)
    requires id in After(actions).runs
    ensures StartedWith(actions, i, t) && t.id == id && After(actions).runs[id].task == t.(status := IsRunning)
  {
    hide Enabled, Apply, After, Taken, StartedWith;
    NoStartAtFirst(actions);
    var n := |actions| - 1;
    var w := After(actions[..n]);
    Authority.LastTaken(actions);
    if Enabled(w, actions[n]) && actions[n] == User(StoreStart) && w.starter.Starting? && w.starter.task.id == id {
      StartStores(w);
      i := StarterHasRead(actions[..n]);
      t := w.starter.task;
    } else {
      if Enabled(w, actions[n]) {
        RunStays(w, actions[n], id);
      }
      i, t := RunHasStarted(actions[..n], id);
    }
    StartedEarlier(actions, i, t);
  }

  lemma StartedEarlier(actions: seq<Action>, i: nat, t: Task)
    requires actions != [] && StartedWith(actions[..|actions| - 1], i, t)
    ensures StartedWith(actions, i, t)
  {
    hide Enabled, After;
    Authority.TakenEarlier(actions, i, actions[i]);
  }

  // ------------------------------------------------------------------ renewals

  /** At step `i` no result of the task was in doubt. */
  ghost predicate SettledAt(actions: seq<Action>, i: nat, id: string) {
    && i < |actions| && After(actions[..i]).ledger.up
    && forall r | r in ResultsOf(After(actions[..i]).ledger.rows, id) :: !r.status.Unknown? && !r.status.Running?
  }

  lemma ChecksAll(w: World, e: nat)
    requires Enabled(w, User(CheckResume(e)))
    ensures w.ledger.up && e in w.errands && w.errands[e].Resuming?
    ensures forall r | r in ResultsOf(w.ledger.rows, w.errands[e].task.id) :: !r.status.Unknown? && !r.status.Running?
    ensures Apply(w, User(CheckResume(e))).errands == w.errands[e := w.errands[e].(settled := true)]
  {
    hide ResultsOf, Renewed;
  }

  /** A renewal was checked before, or just now. */
  lemma ResumingStays(w: World, a: Action, e: nat)
    requires Enabled(w, a) && a != User(CheckResume(e))
    requires e in Apply(w, a).errands && Apply(w, a).errands[e].Resuming? && Apply(w, a).errands[e].settled
    ensures e in w.errands && w.errands[e] == Apply(w, a).errands[e]
  {
    hide Enabled, Apply, Serve, CanServe;
    if a.User? {
      Authority.Served(w, a.ui);
      Authority.ServedErrands(w, a.ui);
      if Authority.GoesOn(a.ui) && a.ui.errand == e {
        NotYetSettled(w, a.ui);
      }
    } else {
      Authority.NotServed(w, a);
    }
  }

  lemma NotYetSettled(w: World, u: UserStep)
    requires CanServe(w, u) && Authority.GoesOn(u) && !u.CheckResume?
    ensures var x := Serve(w, u).errands[u.errand]; x.Resuming? ==> !x.settled
  {
    hide Renewed, ResultsOf;
  }

  lemma {:induction false} RenewalWasSettled(actions: seq<Action>, e: nat) returns (i: nat)
    requires e in After(actions).errands && After(actions).errands[e].Resuming? && After(actions).errands[e].settled
    ensures SettledAt(actions, i, After(actions).errands[e].task.id)
  {
    hide Enabled, Apply, After;
    Authority.NoneAtFirst(actions);
    var n := |actions| - 1;
    var w := After(actions[..n]);
    Authority.LastTaken(actions);
    if Enabled(w, actions[n]) && actions[n] == User(CheckResume(e)) {
      i := n;
      ChecksAll(w, e);
    } else {
      if Enabled(w, actions[n]) {
        ResumingStays(w, actions[n], e);
      }
      i := RenewalWasSettled(actions[..n], e);
      assert actions[..n][..i] == actions[..i];
    }
  }

  /** In every history: a task is renewed only after a moment at which none of its results was in doubt. */
  lemma RenewalIsSettled(actions: seq<Action>, n: nat, e: nat, g: nat) returns (i: nat)
    requires Taken(actions, n, User(StoreResume(e, g)))
    ensures var w := After(actions[..n]);
            && e in w.errands && w.errands[e].Resuming? && g !in w.grants
            && i < n && SettledAt(actions, i, w.errands[e].task.id)
            && forall h | h in w.errands[e].task.grant.hostIds :: h in w.hosts
  {
    hide After;
    StoredWhenSettled(After(actions[..n]), e, g);
    i := RenewalWasSettled(actions[..n], e);
    assert actions[..n][..i] == actions[..i];
  }

  lemma StoredWhenSettled(w: World, e: nat, g: nat)
    requires Enabled(w, User(StoreResume(e, g)))
    ensures e in w.errands && w.errands[e].Resuming? && w.errands[e].settled && g !in w.grants
    ensures forall h | h in w.errands[e].task.grant.hostIds :: h in w.hosts
  {
  }

  // -------------------------------------------------------------------- checks

  /**
   In every history: a check is recorded only when the main agent asks, with a text to be shown,
   nothing of the task in doubt, and the execution a successful look that shows the text and that
   nothing on its host has followed.
   */
  lemma ChecksAreOfLooks(actions: seq<Action>, n: nat, id: string, operator: bool, execution: nat, expected: string)
    returns (r: L.Result, i: nat)
    requires Taken(actions, n, Verify(id, operator, execution, expected))
    ensures operator && expected != "" && id in After(actions[..n]).runs
    ensures var w := After(actions[..n]);
            var results := ResultsOf(w.ledger.rows, id);
            && r in results && r.id == execution && r.status == L.Succeeded
            && (Conduct.IsALook(r.request.operation) || StaysHere(r.request.operation))
            && r.request.hostId in w.runs[id].task.grant.hostIds
            && i + |expected| <= |r.output| && r.output[i..i + |expected|] == expected
            && (forall q | q in results :: !q.status.Unknown? && !q.status.Running?)
            && (forall q | q in results && q.request.hostId == r.request.hostId :: q.startedAt <= r.startedAt)
  {
    hide After, ResultsOf, Conduct.IsALook, Shows, Conduct.IsNamed;
    var w := After(actions[..n]);
    var results := ResultsOf(w.ledger.rows, id);
    r :| r in results && r.id == execution && Acceptable(w.runs[id].task.grant.hostIds, results, r, expected);
    var k :| 0 <= k < |results| && results[k] == r;
    var m := ResultIsRow(w.ledger.rows, id, k);
    Conduct.RowIsNamed(actions[..n], m);
    Authority.LedgerAlways(actions[..n]);
    OperationsAreThese(r.request.operation);
    if !L.IsLocal(r.request.operation) {
      Conduct.ShowsALook(r, expected);
    }
    i := ShownAt(r, expected);
  }

  /** And every such execution is taken. */
  lemma SuchLooksAreTaken(hosts: seq<string>, results: seq<L.Result>, r: L.Result, expected: string, i: nat)
    requires r in results && r.request.hostId in hosts && r.status == L.Succeeded && Conduct.IsALook(r.request.operation)
    requires i + |expected| <= |r.output| && r.output[i..i + |expected|] == expected
    requires forall q | q in results :: !q.status.Unknown? && !q.status.Running?
    requires forall q | q in results && q.request.hostId == r.request.hostId :: q.startedAt <= r.startedAt
    ensures Acceptable(hosts, results, r, expected)
  {
    assert r.output[i..][..|expected|] == r.output[i..i + |expected|];
    assert expected <= r.output[i..];
    NoLookOnTerminal(r.request.operation);
  }

  lemma NoLookOnTerminal(op: string)
    requires Conduct.IsALook(op)
    ensures !OnTerminal(op) && !L.Mutates(op)
  {
    var t := "terminal_";
    assert op[0] != t[0];
  }

  lemma ShownAt(r: L.Result, expected: string) returns (i: nat)
    requires Shows(r, expected)
    ensures r.status == L.Succeeded && i + |expected| <= |r.output| && r.output[i..i + |expected|] == expected
  {
    i :| 0 <= i <= |r.output| - |expected| && expected <= r.output[i..];
    assert r.output[i..][..|expected|] == r.output[i..i + |expected|];
  }

  // --------------------------------------------------------------------- calls

  /** In every history: a call names its task, itself, and a host unless it stays on this machine. */
  lemma CallIsIdentified(actions: seq<Action>, c: nat)
    requires c in After(actions).ledger.calls
    ensures var r := After(actions).ledger.calls[c].request;
            r.taskId != "" && r.callId != "" && (r.hostId == "" ==> StaysHere(r.operation))
  {
    hide After;
    var r := After(actions).ledger.calls[c].request;
    var i, id := Authority.CallWasCleared(actions, c);
    ToolIdentified(After(actions[..i]), c, id, r);
    OperationsAreThese(r.operation);
  }

  lemma ToolIdentified(w: World, c: nat, id: string, r: Request)
    requires Enabled(w, Tool(c, id, r))
    ensures L.Identified(r)
  {
    hide Cleared;
  }

  // ----------------------------------------------------- recovery and cancelling

  /** A grant that has ended lets nothing through, asked or not. */
  lemma NothingWithoutGrant(w: World, t: Task, r: Request)
    requires t.grant.expiresAt <= w.now
    ensures Judgement(w, t, r) == Denied && !Cleared(w, t, r) && !NeedsUser(w, t, r)
  {
  }

  /**
   After recovery no task is running or waiting for the user, no other status has changed, and no
   grant lets anything through; nor does that of a task that was cancelled.
   */
  lemma AfterRestart(w: World, id: string, r: Request)
    requires Enabled(w, Restart) && id in w.tasks && w.now >= 0
    ensures var v := Apply(w, Restart);
            && id in v.tasks && v.tasks.Keys == w.tasks.Keys && v.runs == w.runs
            && var (s, t) := (w.tasks[id].status, v.tasks[id].status);
               && (if s == IsRunning || s == AwaitingApproval then t == Interrupted else t == s)
               && Judgement(v, v.tasks[id], r) == Denied
  {
    hide Judgement, L.Enabled, L.Apply;
    NothingWithoutGrant(Apply(w, Restart), RecoveredTask(w.tasks[id]), r);
  }

  lemma CancelEndsGrant(w: World, e: nat, r: Request)
    requires Enabled(w, User(StoreCancel(e))) && w.now >= 0
    ensures e in w.errands && w.errands[e].Cancelling?
    ensures var t := w.errands[e].task;
            var v := Apply(w, User(StoreCancel(e)));
            t.id in v.tasks && v.tasks[t.id].status == Interrupted && Judgement(v, v.tasks[t.id], r) == Denied
  {
    hide Judgement, L.Apply, Renewed;
    var t := w.errands[e].task;
    NothingWithoutGrant(Apply(w, User(StoreCancel(e))), t.(status := Interrupted, grant := t.grant.(expiresAt := NEVER)), r);
  }

  // ------------------------------------------------------- what a request meets

  /** The user has said yes or no to just this request, under the grant the task has. */
  predicate Answered(w: World, t: Task, r: Request, yes: bool) {
    r in w.approvals && w.approvals[r].decided && w.approvals[r].approved == yes && w.approvals[r].grantId == t.grant.id
  }

  /** No result of the task on any host is in doubt. */
  predicate Certain(w: World, t: Task) {
    forall q | q in ResultsOf(w.ledger.rows, t.id) && !StaysHere(q.request.operation) ::
      !q.status.Unknown? && !q.status.Running?
  }

  /** The user has handed over this file of this machine. */
  predicate Given(w: World, t: Task, r: Request) {
    StaysHere(r.operation) && ((t.id, r.localPath), t.grant.id) in w.attached.Items
  }

  lemma DoubtIs(w: World, t: Task, r: Request)
    ensures MayChange(w, t, r) <==> (MayAlter(r.operation) ==> Certain(w, t))
  {
    hide ResultsOf, StaysHere, MayAlter, L.Mutates, L.IsLocal, Remote, Open;
    OperationsAreThese(r.operation);
    AlterIsRemote(r.operation);
    var results := ResultsOf(w.ledger.rows, t.id);
    forall q: L.Result
      ensures L.IsLocal(q.request.operation) <==> StaysHere(q.request.operation)
      ensures Open(q) <==> q.status.Unknown? || q.status.Running?
    {
      OpenIs(q);
      OperationsAreThese(q.request.operation);
    }
    assert forall q | q in results && !L.IsLocal(q.request.operation) :: q in Remote(results);
  }

  lemma OpenIs(q: L.Result)
    ensures Open(q) <==> q.status.Unknown? || q.status.Running?
  {
  }

  lemma AlterIsRemote(op: string)
    ensures MayAlter(op) ==> !L.IsLocal(op)
  {
  }

  lemma GivenIs(w: World, t: Task, r: Request)
    ensures IsAttached(w, t, r) <==> Given(w, t, r)
  {
    OperationsAreThese(r.operation);
    var k := (t.id, r.localPath);
    assert k in w.attached && w.attached[k] == t.grant.id <==> (k, t.grant.id) in w.attached.Items;
  }

  lemma JudgedIsOwn(w: World, t: Task, r: Request)
    ensures Judgement(w, t, r).Denied? || r.taskId == t.id
  {
    hide Paths.Clean, Paths.Valid, UploadRequest;
  }

  /**
   What becomes of a request: it goes through if it is in scope, handed over or accepted; the user is
   asked about any other that may be asked about and was not answered; one that was declined is
   neither let through nor asked about again; and no change is considered while something is in doubt.
   */
  lemma WhatBecomesOfIt(w: World, t: Task, r: Request)
    requires Authority.Filed(w)
    ensures var verdict := Judgement(w, t, r);
            var considered := MayAlter(r.operation) ==> Certain(w, t);
            && (Cleared(w, t, r) <==>
                  considered && (verdict == Allowed || (verdict == Ask && (Given(w, t, r) || Answered(w, t, r, true)))))
            && (NeedsUser(w, t, r) <==>
                  considered && verdict == Ask && !Given(w, t, r)
                  && !Answered(w, t, r, true) && !Answered(w, t, r, false))
  {
    hide Judgement, MayChange, Certain, IsAttached, Given, MayAlter, Authority.Filed;
    DoubtIs(w, t, r);
    GivenIs(w, t, r);
    JudgedIsOwn(w, t, r);
    Authority.FiledApproval(w, r);
  }

  /** Asking leaves the request without an answer, and the run ends waiting for one. */
  lemma AskedIsUnanswered(w: World, id: string, r: Request, yes: bool, cause: Cause)
    requires Enabled(w, AskUser(id, r))
    ensures id in w.runs
    ensures var v := Apply(w, AskUser(id, r));
            && r in v.approvals && v.approvals[r].request == r && v.approvals[r].grantId == w.runs[id].task.grant.id
            && !Answered(v, w.runs[id].task, r, yes)
            && id in v.runs && v.runs[id].task == w.runs[id].task && Ended(v, id, cause) == AwaitingApproval
  {
    hide NeedsUser, CanServe, Serve, L.Apply, L.Enabled, AllVerified, Remote, ResultsOf;
  }

  // ------------------------------------------------------------ when it is done

  /** The last record of a host is the checked one. */
  predicate CheckedLast(id: string, remote: seq<L.Result>, i: nat, verified: map<(string, string), Evidence>)
    requires i < |remote|
  {
    var k := (id, remote[i].request.hostId);
    k in verified && verified[k].execution == remote[i].id
  }

  /** A task is done exactly if something was done on a host, nothing is in doubt, and every last record is checked. */
  lemma DoneMeans(id: string, results: seq<L.Result>, verified: map<(string, string), Evidence>)
    ensures AllVerified(id, results, verified) <==>
              var remote := Remote(results);
              && remote != [] && (forall q | q in remote :: !q.status.Unknown? && !q.status.Running?)
              && forall i: nat | Completion.LastOnHost(remote, i) :: CheckedLast(id, remote, i, verified)
  {
    hide Remote, Latest;
    var remote := Remote(results);
    forall i: nat | Completion.LastOnHost(remote, i)
      ensures remote[i].request.hostId in Latest(remote) && Latest(remote)[remote[i].request.hostId] == remote[i]
    {
      LatestIsLast(remote, i);
      assert remote[i] in remote;
    }
    forall h | h in Latest(remote)
      ensures exists i: nat :: Completion.LastOnHost(remote, i) && remote[i].request.hostId == h
    {
      var i := LastOf(remote, h);
    }
  }

  lemma {:induction false} LastOf(remote: seq<L.Result>, h: string) returns (i: nat)
    requires exists r :: r in remote && r.request.hostId == h
    ensures Completion.LastOnHost(remote, i) && remote[i].request.hostId == h
  {
    var n := |remote| - 1;
    if remote[n].request.hostId == h {
      i := n;
    } else {
      var r :| r in remote && r.request.hostId == h;
      assert r in remote[..n];
      i := LastOf(remote[..n], h);
      assert forall j | i < j < n :: remote[j] == remote[..n][j];
    }
  }
}
