/** What it takes for a task to be marked as completed. */
module Completion {
  import L = Ledger
  import LedgerProofs
  import opened Policy
  import opened StoreObject
  import opened Verification
  import opened World
  import Authority
  import Renewal

  // ------------------------------------------------------- results and rows

  /** The results on hosts that a task has, in row order. */
  function RemoteOf(rows: seq<L.Row>, id: string): seq<L.Result> { Remote(ResultsOf(rows, id)) }

  lemma RemoteSnoc(rows: seq<L.Row>, id: string)
    requires rows != []
    ensures var last := rows[|rows| - 1];
            RemoteOf(rows, id) ==
              if last.digest.taskId == id && !L.IsLocal(last.payload.request.operation)
              then RemoteOf(rows[..|rows| - 1], id) + [last.payload] else RemoteOf(rows[..|rows| - 1], id)
  {
    var rest := ResultsOf(rows[..|rows| - 1], id);
    assert (rest + [rows[|rows| - 1].payload])[..|rest|] == rest;
  }

  /** Later rows are of other tasks. */
  ghost predicate NotAdded(a: seq<L.Row>, b: seq<L.Row>, id: string) {
    forall i | |a| <= i < |b| :: b[i].digest.taskId != id
  }

  ghost predicate Faithful(rows: seq<L.Row>) {
    forall i | 0 <= i < |rows| :: rows[i].payload.request == rows[i].digest
  }

  /** What is settled stays, and other tasks do not matter. */
  lemma {:induction false} RemoteKept(a: seq<L.Row>, b: seq<L.Row>, id: string)
    requires LedgerProofs.Settled(a, b) && NotAdded(a, b, id) && Faithful(a) && Faithful(b)
    requires forall r | r in RemoteOf(a, id) :: !Open(r)
    ensures RemoteOf(b, id) == RemoteOf(a, id)
    decreases |b|
  {
    hide RemoteOf;
    if b == [] {
    } else if |b| > |a| {
      RemoteSnoc(b, id);
      RemoteKept(a, b[..|b| - 1], id);
    } else {
      RemoteSnoc(b, id);
      RemoteSnoc(a, id);
      RemoteKept(a[..|a| - 1], b[..|b| - 1], id);
      var r := a[|a| - 1].payload;
      if a[|a| - 1].digest.taskId == id && !L.IsLocal(r.request.operation) {
        assert r in RemoteOf(a, id);
      }
    }
  }

  // ---------------------------------------------------------------- invariant

  /** The row a check points to is still as it was when it was accepted. */
  ghost predicate EvidenceHolds(rows: seq<L.Row>, id: string, host: string, e: Evidence) {
    exists i :: 0 <= i < |rows| && rows[i].payload.id == e.execution && rows[i].digest.taskId == id
                && rows[i].payload.request.hostId == host && Shows(rows[i].payload, e.expected) && e.expected != ""
  }

  ghost predicate EvidenceSound(rows: seq<L.Row>, verified: map<(string, string), Evidence>) {
    forall k | k in verified :: EvidenceHolds(rows, k.0, k.1, verified[k])
  }

  ghost predicate CallsHaveRuns(w: World) {
    forall c | c in w.ledger.calls :: w.ledger.calls[c].request.taskId in w.runs
  }

  predicate NothingDone(errands: map<nat, Errand>) {
    forall e | e in errands && errands[e].Submitting? :: !errands[e].task.status.Completed?
  }

  /** What every history keeps. */
  ghost predicate Sound(w: World) {
    L.Inv(w.ledger) && Authority.Filed(w) && EvidenceSound(w.ledger.rows, w.verified) && CallsHaveRuns(w)
    && NothingDone(w.errands)
  }

  /** No run is under way, and the checks cover everything that was done. */
  predicate Covered(w: World, id: string) {
    id !in w.runs && AllVerified(id, ResultsOf(w.ledger.rows, id), w.verified)
  }

  predicate IsCompleted(w: World, id: string) { id in w.tasks && w.tasks[id].status.Completed? }

  /** Every task that is marked as completed is. */
  ghost predicate Rests(w: World) { forall id | IsCompleted(w, id) :: Covered(w, id) }

  lemma EvidenceKept(a: seq<L.Row>, b: seq<L.Row>, id: string, host: string, e: Evidence)
    requires LedgerProofs.Settled(a, b) && EvidenceHolds(a, id, host, e)
    ensures EvidenceHolds(b, id, host, e)
  {
    hide Contains, OnTerminal, L.Mutates;
    var i :| 0 <= i < |a| && a[i].payload.id == e.execution && a[i].digest.taskId == id
             && a[i].payload.request.hostId == host && Shows(a[i].payload, e.expected);
    assert b[i] == a[i];
  }

  lemma AllEvidenceKept(a: seq<L.Row>, b: seq<L.Row>, verified: map<(string, string), Evidence>)
    requires LedgerProofs.Settled(a, b) && EvidenceSound(a, verified)
    ensures EvidenceSound(b, verified)
  {
    hide EvidenceHolds, LedgerProofs.Settled;
    forall k | k in verified
      ensures EvidenceHolds(b, k.0, k.1, verified[k])
    {
      EvidenceKept(a, b, k.0, k.1, verified[k]);
    }
  }

  lemma VerifiedKept(a: seq<L.Row>, b: seq<L.Row>, id: string, verified: map<(string, string), Evidence>)
    requires LedgerProofs.Settled(a, b) && NotAdded(a, b, id) && Faithful(a) && Faithful(b)
    requires AllVerified(id, ResultsOf(a, id), verified)
    ensures AllVerified(id, ResultsOf(b, id), verified)
  {
    hide LedgerProofs.Settled, NotAdded, Faithful, Latest, Remote, ResultsOf;
    assert forall r | r in RemoteOf(a, id) :: !Open(r);
    RemoteKept(a, b, id);
  }

  lemma LedgerAdds(s: L.Ledger, b: L.Action, id: string)
    requires L.Enabled(s, b) && forall c | c in s.calls :: s.calls[c].request.taskId != id
    ensures NotAdded(s.rows, L.Apply(s, b).rows, id)
  {
    hide L.Find, L.Identified, L.FinalStatus, L.Mutates;
  }

  lemma LedgerCalls(s: L.Ledger, b: L.Action, c: nat)
    requires L.Enabled(s, b) && c in L.Apply(s, b).calls
    ensures (c in s.calls && L.Apply(s, b).calls[c].request == s.calls[c].request)
            || (b.Begin? && b.c == c && L.Apply(s, b).calls[c].request == b.request)
  {
    hide L.Identified, L.InsertRow, L.FinishRow, L.Find, L.FinalStatus, L.Mutates;
  }

  lemma FaithfulRows(s: L.Ledger)
    requires L.Inv(s)
    ensures Faithful(s.rows)
  {
  }

  // --------------------------------------------------------------- every step

  lemma NewEvidence(w: World, id: string, execution: nat, expected: string)
    requires L.Inv(w.ledger) && id in w.runs && expected != ""
    requires exists r :: r in ResultsOf(w.ledger.rows, id) && r.id == execution
                         && Acceptable(w.runs[id].task.grant.hostIds, ResultsOf(w.ledger.rows, id), r, expected)
    ensures EvidenceHolds(w.ledger.rows, id, HostOf(w, id, execution), Evidence(execution, expected))
  {
    hide Contains, OnTerminal, L.Mutates, ResultsOf;
    var results := ResultsOf(w.ledger.rows, id);
    var r :| r in results && r.id == execution && Acceptable(w.runs[id].task.grant.hostIds, results, r, expected);
    UniqueResults(w.ledger.rows, w.ledger.issued, id);
    var i :| 0 <= i < |results| && results[i] == r;
    var k := ResultIsRow(w.ledger.rows, id, i);
    assert HostOf(w, id, execution) == r.request.hostId;
  }

  /** The step of the ledger that an action is, if it is one. */
  function LedgerPart(a: Action): Part {
    match a
    case Tool(c, _, r) => Moves(L.Begin(c, r))
    case Guard(c) => Moves(L.Authorise(c))
    case Do(step) => Moves(step)
    case Crash => Moves(L.Crash)
    case Restart => Moves(L.Restart)
    case _ => Stands
  }

  datatype Part = Stands | Moves(step: L.Action)

  lemma LedgerIs(w: World, a: Action)
    requires Enabled(w, a)
    ensures var p := LedgerPart(a);
            && (p.Moves? ==> L.Enabled(w.ledger, p.step) && Apply(w, a).ledger == L.Apply(w.ledger, p.step))
            && (p.Stands? ==> Apply(w, a).ledger == w.ledger)
    ensures !a.Verify? ==> Apply(w, a).verified == w.verified
  {
    hide L.Apply, L.Enabled, Cleared, NeedsUser, Judgement, Ended, Acceptable, ResultsOf, RecoveredTask, HostOf, Busy,
      CanServe, Serve;
    if a.User? {
      Authority.ServeKeepsCalls(w, a.ui);
    }
  }

  lemma RowsSettle(w: World, a: Action)
    requires L.Inv(w.ledger) && Enabled(w, a)
    ensures LedgerProofs.Settled(w.ledger.rows, Apply(w, a).ledger.rows) && L.Inv(Apply(w, a).ledger)
  {
    hide L.Inv, L.Apply, L.Enabled, Enabled, Apply, LedgerProofs.Settled;
    LedgerIs(w, a);
    LedgerProofs.SettledReflexive(w.ledger.rows);
    if LedgerPart(a).Moves? {
      LedgerProofs.StepKeeps(w.ledger, LedgerPart(a).step);
    }
  }

  lemma EvidenceStep(w: World, a: Action)
    requires L.Inv(w.ledger) && EvidenceSound(w.ledger.rows, w.verified) && Enabled(w, a)
    ensures EvidenceSound(Apply(w, a).ledger.rows, Apply(w, a).verified)
  {
    hide L.Inv, EvidenceSound, LedgerProofs.Settled, Enabled, Apply;
    RowsSettle(w, a);
    LedgerIs(w, a);
    if a.Verify? {
      VerifyAdds(w, a);
    } else {
      AllEvidenceKept(w.ledger.rows, Apply(w, a).ledger.rows, w.verified);
    }
  }

  lemma VerifyAdds(w: World, a: Action)
    requires L.Inv(w.ledger) && EvidenceSound(w.ledger.rows, w.verified) && Enabled(w, a) && a.Verify?
    ensures EvidenceSound(Apply(w, a).ledger.rows, Apply(w, a).verified)
    ensures a.id in w.runs && Apply(w, a).runs == w.runs
    ensures forall k | k in Apply(w, a).verified && k.0 != a.id :: k in w.verified && Apply(w, a).verified[k] == w.verified[k]
    ensures forall k | k in w.verified && k.0 != a.id :: k in Apply(w, a).verified
  {
    hide L.Inv, EvidenceHolds, ResultsOf, Acceptable, HostOf;
    NewEvidence(w, a.id, a.execution, a.expected);
  }

  /** Calls are made by runs, and runs outlive them. */
  lemma CallsStep(w: World, a: Action)
    requires CallsHaveRuns(w) && Authority.Filed(w) && Enabled(w, a)
    ensures CallsHaveRuns(Apply(w, a))
  {
    hide Enabled, Apply, Authority.Filed, L.Apply, L.Enabled;
    LedgerIs(w, a);
    RunsGrow(w, a);
    var v := Apply(w, a);
    forall c | c in v.ledger.calls
      ensures v.ledger.calls[c].request.taskId in v.runs
    {
      if LedgerPart(a).Moves? {
        LedgerCalls(w.ledger, LedgerPart(a).step, c);
      }
      CallKeepsRun(w, a, c);
    }
  }

  /** Runs end only by their own end or a crash. */
  lemma RunsGrow(w: World, a: Action)
    requires Enabled(w, a)
    ensures forall id | id in w.runs && id !in Apply(w, a).runs :: a.Crash? || (a.EndRun? && a.id == id && !Busy(w, id))
    ensures forall id | id in Apply(w, a).runs && id !in w.runs ::
              a == User(StoreStart) && w.starter.Starting? && w.starter.task.id == id
  {
    hide L.Apply, L.Enabled, Cleared, NeedsUser, Judgement, Ended, Acceptable, ResultsOf, RecoveredTask, HostOf, Busy,
      CanServe, Serve;
    if a.User? {
      Authority.ServedRecords(w, a.ui);
      Renewal.ServedTasks(w, a.ui);
    }
  }

  lemma CallKeepsRun(w: World, a: Action, c: nat)
    requires CallsHaveRuns(w) && Authority.Filed(w) && Enabled(w, a) && c in Apply(w, a).ledger.calls
    requires (c in w.ledger.calls && Apply(w, a).ledger.calls[c].request == w.ledger.calls[c].request)
             || (LedgerPart(a).Moves? && LedgerPart(a).step.Begin?
                 && Apply(w, a).ledger.calls[c].request == LedgerPart(a).step.request)
    ensures Apply(w, a).ledger.calls[c].request.taskId in Apply(w, a).runs
  {
    hide Enabled, Apply, Authority.Filed, L.Apply, L.Enabled;
    RunsGrow(w, a);
    if a.Tool? && !(c in w.ledger.calls && Apply(w, a).ledger.calls[c].request == w.ledger.calls[c].request) {
      ToolIsRunning(w, a.call, a.id, a.request);
    } else if a.Crash? {
      CrashEndsCalls(w, c);
    } else if LedgerPart(a).Moves? && LedgerPart(a).step.Begin? && !a.Tool? {
      PlainIsNoBegin(w, a);
    } else {
      CallIsBusy(w, c);
    }
  }

  lemma CallIsBusy(w: World, c: nat)
    ensures c in w.ledger.calls ==> Busy(w, w.ledger.calls[c].request.taskId)
  {
  }

  lemma PlainIsNoBegin(w: World, a: Action)
    requires Enabled(w, a) && !a.Tool?
    ensures !(LedgerPart(a).Moves? && LedgerPart(a).step.Begin?)
  {
    hide L.Enabled, CanServe;
  }

  lemma CrashEndsCalls(w: World, c: nat)
    requires Enabled(w, Crash)
    ensures c !in Apply(w, Crash).ledger.calls
  {
  }

  lemma ToolIsRunning(w: World, c: nat, id: string, r: L.Request)
    requires Enabled(w, Tool(c, id, r)) && Authority.Filed(w)
    ensures r.taskId in w.runs
  {
    hide MayChange, Authority.ErrandsOk, Authority.ApprovalsOk, Authority.AttachedOk;
    Authority.FiledId(w, id);
  }

  lemma ErrandsStep(w: World, a: Action)
    requires NothingDone(w.errands) && Enabled(w, a)
    ensures NothingDone(Apply(w, a).errands)
  {
    hide Enabled, Apply, CanServe, Serve;
    if a.User? {
      Authority.Served(w, a.ui);
      Authority.ServedErrands(w, a.ui);
      if Authority.GoesOn(a.ui) && Serve(w, a.ui).errands[a.ui.errand].Submitting? {
        SubmittingIsOpen(w, a.ui);
      }
    } else {
      Authority.NotServed(w, a);
    }
  }

  lemma SubmittingIsOpen(w: World, u: UserStep)
    requires CanServe(w, u) && Authority.GoesOn(u) && Serve(w, u).errands[u.errand].Submitting?
    ensures !Serve(w, u).errands[u.errand].task.status.Completed?
  {
    hide Renewed;
  }

  lemma SoundStep(w: World, a: Action)
    requires Sound(w) && Enabled(w, a)
    ensures Sound(Apply(w, a))
  {
    hide L.Inv, Authority.Filed, EvidenceSound, CallsHaveRuns, NothingDone, Enabled, Apply, LedgerProofs.Settled;
    RowsSettle(w, a);
    Authority.FiledApply(w, a);
    EvidenceStep(w, a);
    CallsStep(w, a);
    ErrandsStep(w, a);
  }

  lemma {:induction false} AlwaysSound(actions: seq<Action>)
    ensures Sound(After(actions))
  {
    hide Sound, Enabled, Apply;
    if actions == [] {
      SoundAtFirst();
    } else {
      var n := |actions| - 1;
      AlwaysSound(actions[..n]);
      if Enabled(After(actions[..n]), actions[n]) {
        SoundStep(After(actions[..n]), actions[n]);
      }
    }
  }

  lemma SoundAtFirst()
    ensures Sound(BEGINNING)
  {
  }

  // ------------------------------------------------------ how long it stays so

  /** Nothing but a new run of the task itself takes away that it is covered. */
  lemma CoveredStep(w: World, a: Action, id: string)
    requires Sound(w) && Enabled(w, a) && Covered(w, id)
    requires a == User(StoreStart) && w.starter.Starting? ==> w.starter.task.id != id
    ensures Covered(Apply(w, a), id)
  {
    hide L.Inv, Authority.Filed, EvidenceSound, AllVerified, ResultsOf, Enabled, Apply, LedgerProofs.Settled, Faithful, NotAdded;
    var v := Apply(w, a);
    RowsSettle(w, a);
    RunsGrow(w, a);
    LedgerIs(w, a);
    FaithfulRows(w.ledger);
    FaithfulRows(v.ledger);
    NoneAdded(w, a, id);
    VerifiedKept(w.ledger.rows, v.ledger.rows, id, w.verified);
    if a.Verify? {
      VerifyAdds(w, a);
      OtherChecks(id, ResultsOf(v.ledger.rows, id), w.verified, v.verified);
    }
  }

  lemma OtherChecks(id: string, results: seq<L.Result>, a: map<(string, string), Evidence>, b: map<(string, string), Evidence>)
    requires AllVerified(id, results, a)
    requires forall k | k in a && k.0 == id :: k in b && b[k] == a[k]
    ensures AllVerified(id, results, b)
  {
    hide Remote, Latest;
  }

  lemma NoneAdded(w: World, a: Action, id: string)
    requires CallsHaveRuns(w) && Enabled(w, a) && id !in w.runs
    ensures NotAdded(w.ledger.rows, Apply(w, a).ledger.rows, id)
  {
    hide Enabled, Apply, L.Apply, L.Enabled;
    LedgerIs(w, a);
    if LedgerPart(a).Moves? {
      LedgerAdds(w.ledger, LedgerPart(a).step, id);
    }
  }

  /** A renewal stores a copy that says completed, although by now more was done or a run is under way. */
  predicate Stale(w: World, a: Action) {
    && a.User? && a.ui.StoreResume? && a.ui.errand in w.errands && w.errands[a.ui.errand].Resuming?
    && var t := w.errands[a.ui.errand].task; t.current && t.status.Completed? && !Covered(w, t.id)
  }

  /** How a task comes to be marked as completed. */
  lemma BecomesCompleted(w: World, a: Action, id: string)
    requires Sound(w) && Enabled(w, a) && IsCompleted(Apply(w, a), id)
    ensures || (IsCompleted(w, id) && !(a == User(StoreStart) && w.starter.Starting? && w.starter.task.id == id))
            || (a.EndRun? && a.id == id && Covered(Apply(w, a), id))
            || (a.User? && a.ui.StoreResume? && a.ui.errand in w.errands && w.errands[a.ui.errand].Resuming?
                && var t := w.errands[a.ui.errand].task; t.id == id && t.current && t.status.Completed?)
  {
    hide L.Inv, Authority.Filed, EvidenceSound, CallsHaveRuns, Covered, Enabled, Apply, CanServe, Serve;
    if a.User? {
      Authority.Served(w, a.ui);
      CompletedByUser(w, a.ui, id);
    } else {
      CompletedByRun(w, a, id);
    }
  }

  lemma CompletedByUser(w: World, u: UserStep, id: string)
    requires CanServe(w, u) && NothingDone(w.errands) && IsCompleted(Serve(w, u), id)
    ensures || (IsCompleted(w, id) && !(u == StoreStart && w.starter.Starting? && w.starter.task.id == id))
            || (u.StoreResume? && u.errand in w.errands && w.errands[u.errand].Resuming?
                && var t := w.errands[u.errand].task; t.id == id && t.current && t.status.Completed?)
  {
    hide CanServe, Serve, Renewed;
    Authority.ServedRecords(w, u);
    Renewal.ServedTasks(w, u);
    if u.StoreResume? || u.StoreSubmit? || u.StoreCancel? {
      Renewal.StoredByErrand(w, u);
      if u.StoreResume? {
        Authority.RenewedKeeps(w, w.errands[u.errand].task, u.grant);
      }
    }
  }

  lemma CompletedByRun(w: World, a: Action, id: string)
    requires Enabled(w, a) && !a.User? && IsCompleted(Apply(w, a), id)
    ensures IsCompleted(w, id) || (a.EndRun? && a.id == id && Covered(Apply(w, a), id))
  {
    hide L.Apply, L.Enabled, Cleared, NeedsUser, Judgement, Acceptable, ResultsOf, HostOf, Busy, CanServe, Serve, AllVerified,
      Remote;
  }

  /** A step leaves a completed task uncovered exactly if it is a stale renewal. */
  lemma RestsUnlessStale(w: World, a: Action)
    requires Sound(w) && Rests(w) && Enabled(w, a)
    ensures Rests(Apply(w, a)) <==> !Stale(w, a)
  {
    hide Sound, Covered, IsCompleted, Enabled, Apply;
    var v := Apply(w, a);
    if Stale(w, a) {
      StaleBreaks(w, a);
    } else {
      forall id | IsCompleted(v, id)
        ensures Covered(v, id)
      {
        BecomesCompleted(w, a, id);
        if a.User? && a.ui.StoreResume? && a.ui.errand in w.errands && w.errands[a.ui.errand].Resuming?
           && w.errands[a.ui.errand].task.id == id {
          RenewedIsCompleted(w, a);
          CoveredStep(w, a, id);
        } else if !(a.EndRun? && a.id == id && Covered(v, id)) {
          CoveredStep(w, a, id);
        }
      }
    }
  }

  lemma RenewedIsCompleted(w: World, a: Action)
    requires Enabled(w, a) && a.User? && a.ui.StoreResume?
    ensures a.ui.errand in w.errands && w.errands[a.ui.errand].Resuming?
    ensures var t := w.errands[a.ui.errand].task;
            IsCompleted(Apply(w, a), t.id) <==> t.current && t.status.Completed?
  {
    hide Enabled, Apply, CanServe, Serve, Renewed;
    Authority.Served(w, a.ui);
    Renewal.StoredByErrand(w, a.ui);
    Authority.RenewedKeeps(w, w.errands[a.ui.errand].task, a.ui.grant);
  }

  /** The copy is stored; what was done and what runs stays as it is. */
  lemma StaleBreaks(w: World, a: Action)
    requires Enabled(w, a) && Stale(w, a)
    ensures var id := w.errands[a.ui.errand].task.id; IsCompleted(Apply(w, a), id) && !Covered(Apply(w, a), id)
  {
    hide Enabled, Apply, CanServe, Serve, AllVerified, ResultsOf, IsCompleted;
    RenewedIsCompleted(w, a);
    Authority.Served(w, a.ui);
    Authority.ServedRecords(w, a.ui);
    Authority.ServeKeepsCalls(w, a.ui);
  }

  // --------------------------------------------------------------- main results

  /** Nothing of the task happened on this host after record `i`. */
  ghost predicate LastOnHost(remote: seq<L.Result>, i: nat) {
    i < |remote| && forall j | i < j < |remote| :: remote[j].request.hostId != remote[i].request.hostId
  }

  /** The last record of a host is a good look at it, and shows the verified text. */
  lemma LastIsShown(w: World, id: string, i: nat)
    requires Sound(w) && AllVerified(id, ResultsOf(w.ledger.rows, id), w.verified)
    requires LastOnHost(RemoteOf(w.ledger.rows, id), i)
    ensures var r := RemoteOf(w.ledger.rows, id)[i];
            && (id, r.request.hostId) in w.verified
            && var e := w.verified[(id, r.request.hostId)]; e.expected != "" && Shows(r, e.expected)
  {
    hide Authority.Filed, Contains, OnTerminal, L.Mutates, Remote, Latest, ResultsOf, L.CallsOk, L.LocksOk, L.LogOk,
      CallsHaveRuns;
    var results := ResultsOf(w.ledger.rows, id);
    var r := Remote(results)[i];
    LatestIsLast(Remote(results), i);
    assert r in Remote(results);
    var e := w.verified[(id, r.request.hostId)];
    assert EvidenceHolds(w.ledger.rows, id, r.request.hostId, e);
    var k :| 0 <= k < |w.ledger.rows| && w.ledger.rows[k].payload.id == e.execution
             && Shows(w.ledger.rows[k].payload, e.expected) && e.expected != "";
    var n :| 0 <= n < |results| && results[n] == r;
    var m := ResultIsRow(w.ledger.rows, id, n);
    assert m == k;
  }

  /** Every host was looked at last with success, the verified text is there, and nothing is in doubt. */
  ghost predicate AllShown(w: World, id: string) {
    var remote := RemoteOf(w.ledger.rows, id);
    && remote != []
    && (forall r | r in remote :: !r.status.Unknown? && !r.status.Running?)
    && forall i: nat | LastOnHost(remote, i) ::
         && (id, remote[i].request.hostId) in w.verified
         && var e := w.verified[(id, remote[i].request.hostId)]; e.expected != "" && Shows(remote[i], e.expected)
  }

  lemma CoveredIsShown(w: World, id: string)
    requires Sound(w) && Covered(w, id)
    ensures AllShown(w, id)
  {
    hide Sound, Remote, ResultsOf, Shows, Latest;
    forall i: nat | LastOnHost(RemoteOf(w.ledger.rows, id), i)
      ensures var r := RemoteOf(w.ledger.rows, id)[i];
              && (id, r.request.hostId) in w.verified
              && var e := w.verified[(id, r.request.hostId)]; e.expected != "" && Shows(r, e.expected)
    {
      LastIsShown(w, id, i);
    }
  }

  /** In every history: a run that marks its task as completed has looked at everything it did. */
  lemma CompletionIsEarned(actions: seq<Action>, n: nat, id: string, cause: Cause)
    requires Taken(actions, n, EndRun(id, cause)) && IsCompleted(After(actions[..n + 1]), id)
    ensures AllShown(After(actions[..n + 1]), id)
  {
    hide After, Sound, AllShown, Enabled, Apply;
    Renewal.WasTaken(actions, n, EndRun(id, cause));
    Renewal.NextIs(actions, n);
    AlwaysSound(actions[..n + 1]);
    EarnedAtEnd(After(actions[..n]), id, cause);
    CoveredIsShown(After(actions[..n + 1]), id);
  }

  lemma EarnedAtEnd(w: World, id: string, cause: Cause)
    requires Enabled(w, EndRun(id, cause)) && IsCompleted(Apply(w, EndRun(id, cause)), id)
    ensures Covered(Apply(w, EndRun(id, cause)), id)
  {
    hide Busy, ResultsOf, AllVerified, Remote;
  }

  /** No renewal of the history was stale. */
  ghost predicate NoneStale(actions: seq<Action>) {
    forall k: nat | k < |actions| && Enabled(After(actions[..k]), actions[k]) :: !Stale(After(actions[..k]), actions[k])
  }

  lemma {:induction false} RestsInHistory(actions: seq<Action>)
    requires NoneStale(actions)
    ensures Rests(After(actions))
  {
    hide After, Sound, Rests, Stale, Enabled, Apply;
    if actions == [] {
      NothingCompleted();
    } else {
      var n := |actions| - 1;
      forall k: nat | k < n && Enabled(After(actions[..n][..k]), actions[..n][k])
        ensures !Stale(After(actions[..n][..k]), actions[..n][k])
      {
        assert actions[..n][..k] == actions[..k];
      }
      RestsInHistory(actions[..n]);
      AlwaysSound(actions[..n]);
      Authority.LastTaken(actions);
      if Enabled(After(actions[..n]), actions[n]) {
        RestsUnlessStale(After(actions[..n]), actions[n]);
      }
    }
  }

  lemma NothingCompleted()
    ensures Rests(After([]))
  {
  }

  /** Without stale renewals what is marked as completed stays looked at, whatever happens. */
  lemma CompletedIsVerified(actions: seq<Action>, id: string)
    requires NoneStale(actions) && IsCompleted(After(actions), id)
    ensures id !in After(actions).runs && AllShown(After(actions), id)
  {
    hide After, Sound, AllShown, NoneStale;
    RestsInHistory(actions);
    AlwaysSound(actions);
    CoveredIsShown(After(actions), id);
  }

  // ------------------------------------------------------- when a copy is stale

  /** Errand `e` holds the copy that was read at step `i`. */
  ghost predicate Keeps(actions: seq<Action>, i: nat, j: nat, e: nat, id: string) {
    i <= j <= |actions| && id in After(actions[..i]).tasks
    && e in After(actions[..j]).errands && After(actions[..j]).errands[e].Resuming?
    && After(actions[..j]).errands[e].task == After(actions[..i]).tasks[id]
  }

  lemma ResumingKept(w: World, a: Action, e: nat)
    requires e in w.errands && w.errands[e].Resuming? && e in Step(w, a).errands
    ensures Step(w, a).errands[e].Resuming? && Step(w, a).errands[e].task == w.errands[e].task
  {
    hide Enabled, Apply, CanServe, Serve;
    if Enabled(w, a) {
      if a.User? {
        Authority.Served(w, a.ui);
        Authority.ServedErrands(w, a.ui);
        if Authority.GoesOn(a.ui) && a.ui.errand == e {
          StillResuming(w, a.ui);
        }
      } else {
        Authority.NotServed(w, a);
      }
    }
  }

  lemma StillResuming(w: World, u: UserStep)
    requires CanServe(w, u) && Authority.GoesOn(u) && u.errand in w.errands && w.errands[u.errand].Resuming?
    ensures Serve(w, u).errands[u.errand].Resuming? && Serve(w, u).errands[u.errand].task == w.errands[u.errand].task
  {
    hide Renewed;
  }

  lemma JustRead(w: World, e: nat, id: string)
    requires Enabled(w, User(LoadResume(e, id)))
    ensures id in w.tasks && Step(w, User(LoadResume(e, id))).errands == w.errands[e := Resuming(w.tasks[id], false)]
    ensures Covered(Step(w, User(LoadResume(e, id))), id) == Covered(w, id)
  {
    hide AllVerified, ResultsOf;
  }

  /** No run of the task was stored between reading and now. */
  ghost predicate NoRunSince(actions: seq<Action>, i: nat, k: nat, id: string) {
    k <= |actions| && forall j: nat | i < j < k ::
      !(actions[j] == User(StoreStart) && After(actions[..j]).starter.Starting? && After(actions[..j]).starter.task.id == id)
  }

  lemma {:induction false} CopyStaysTrue(actions: seq<Action>, i: nat, k: nat, e: nat, id: string)
    requires Taken(actions, i, User(LoadResume(e, id))) && i < k <= |actions| && NoRunSince(actions, i, k, id)
    requires forall j: nat | i < j <= k :: e in After(actions[..j]).errands
    requires Rests(After(actions[..i]))
    ensures Keeps(actions, i, k, e, id)
    ensures IsCompleted(After(actions[..i]), id) ==> Covered(After(actions[..k]), id)
    decreases k
  {
    hide After, Sound, Covered, Enabled, Apply, Step;
    Renewal.WasTaken(actions, i, User(LoadResume(e, id)));
    Renewal.NextIs(actions, k - 1);
    var w := After(actions[..k - 1]);
    Renewal.StepIs(w, actions[k - 1]);
    if k == i + 1 {
      JustRead(w, e, id);
    } else {
      CopyStaysTrue(actions, i, k - 1, e, id);
      ResumingKept(w, actions[k - 1], e);
      AlwaysSound(actions[..k - 1]);
      if IsCompleted(After(actions[..i]), id) && Enabled(w, actions[k - 1]) {
        CoveredStep(w, actions[k - 1], id);
      }
    }
  }

  /** A renewal is not stale if no run of the task was stored since it read the task. */
  lemma NotStaleWithoutRun(actions: seq<Action>, i: nat, k: nat, e: nat, id: string, g: nat)
    requires Taken(actions, i, User(LoadResume(e, id))) && i < k && Taken(actions, k, User(StoreResume(e, g)))
    requires NoRunSince(actions, i, k, id) && forall j: nat | i < j <= k :: e in After(actions[..j]).errands
    requires NoneStale(actions[..i])
    ensures !Stale(After(actions[..k]), User(StoreResume(e, g)))
  {
    hide After, Covered, NoneStale, NoRunSince;
    RestsInHistory(actions[..i]);
    CopyStaysTrue(actions, i, k, e, id);
    AlwaysSound(actions[..i]);
    Authority.AlwaysFiled(actions[..i]);
    Authority.FiledId(After(actions[..i]), id);
  }

  /** A later execution on a host makes the checks insufficient until that very execution is checked. */
  lemma LaterExecutionInvalidates(w: World, id: string, result: L.Result)
    requires Sound(w) && AllVerified(id, ResultsOf(w.ledger.rows, id), w.verified)
    requires result.id !in w.ledger.issued && result.request.taskId == id && !L.IsLocal(result.request.operation)
    ensures var rows := w.ledger.rows + [L.Row(result.request, result)];
            !AllVerified(id, ResultsOf(rows, id), w.verified)
  {
    hide Authority.Filed, Shows, L.CallsOk, L.LocksOk, L.LogOk, Remote, ResultsOf, Latest, NoneOpen, CallsHaveRuns;
    var rows := w.ledger.rows + [L.Row(result.request, result)];
    assert rows[..|rows| - 1] == w.ledger.rows;
    RemoteSnoc(rows, id);
    var remote := RemoteOf(rows, id);
    LatestIsLast(remote, |remote| - 1);
    var h := result.request.hostId;
    assert Latest(remote)[h] == result;
    assert result in remote;
    if (id, h) in w.verified {
      assert EvidenceHolds(w.ledger.rows, id, h, w.verified[(id, h)]);
    }
  }
}
