/** What the runs of a task may and may not do on a host, with the operations by their names. */
module Conduct {
  import L = Ledger
  import LedgerProofs
  import opened Policy
  import opened StoreObject
  import opened Verification
  import opened World
  import Authority
  import Renewal
  import Completion

  predicate IsNamed(op: string) { LooksOnly(op) || MayAlter(op) || StaysHere(op) }

  /** Every call there is asks for one of the named operations. */
  lemma CallIsNamed(actions: seq<Action>, c: nat)
    requires c in After(actions).ledger.calls
    ensures IsNamed(After(actions).ledger.calls[c].request.operation)
  {
    hide After, Enabled, Cleared, IsNamed;
    var r := After(actions).ledger.calls[c].request;
    var i, id := Authority.CallWasCleared(actions, c);
    Authority.AlwaysFiled(actions[..i]);
    ToolIsNamed(After(actions[..i]), c, id, r);
  }

  lemma ToolIsNamed(w: World, c: nat, id: string, r: Request)
    requires Enabled(w, Tool(c, id, r)) && Authority.Filed(w)
    ensures IsNamed(r.operation)
  {
    hide Cleared, Authority.Filed;
    Authority.EntitledMeans(w, w.runs[id].task, r);
  }

  /** A row was there before, or is that of a call. */
  lemma RowIsOfCall(s: L.Ledger, b: L.Action, i: nat)
    requires L.Enabled(s, b) && i < |L.Apply(s, b).rows|
    ensures (i < |s.rows| && L.Apply(s, b).rows[i].digest == s.rows[i].digest)
            || (b.Insert? && b.c in s.calls && L.Apply(s, b).rows[i].digest == s.calls[b.c].request)
  {
    hide L.Find, L.Identified, L.FinalStatus, L.Mutates;
  }

  lemma {:induction false} RowIsNamed(actions: seq<Action>, i: nat)
    requires i < |After(actions).ledger.rows|
    ensures IsNamed(After(actions).ledger.rows[i].digest.operation)
  {
    hide Enabled, Apply, L.Enabled, L.Apply, L.Inv, IsNamed;
    NoRowsAtFirst(actions);
    var before := actions[..|actions| - 1];
    var w := After(before);
    Authority.LedgerAlways(before);
    Authority.LedgerStep(w, actions[|actions| - 1]);
    if After(actions).ledger == w.ledger {
      RowIsNamed(before, i);
    } else {
      var b :| L.Enabled(w.ledger, b) && After(actions).ledger == L.Apply(w.ledger, b);
      RowIsOfCall(w.ledger, b, i);
      if i < |w.ledger.rows| && After(actions).ledger.rows[i].digest == w.ledger.rows[i].digest {
        RowIsNamed(before, i);
      } else {
        CallIsNamed(before, b.c);
      }
    }
  }

  lemma NoRowsAtFirst(actions: seq<Action>)
    ensures After(actions).ledger.rows != [] ==> actions != []
  {
  }

  // ------------------------------------------------------------------- results

  /**
   In every history: two calls that are past the lock of one host, neither of them one of the
   seven that only look, are the same call.
   */
  lemma OneChangeAtATime(actions: seq<Action>, c: nat, d: nat)
    requires var s := After(actions).ledger;
             && c in s.calls && d in s.calls && !s.calls[c].phase.Waiting? && !s.calls[d].phase.Waiting?
             && s.calls[c].request.hostId == s.calls[d].request.hostId
             && forall e | e in {c, d} ::
                  s.calls[e].request.operation !in
                    {"observe", "service_status", "logs", "file_read", "file_hash", "terminal_connect", "terminal_read",
                     "local_stat", "local_list", "local_read"}
    ensures c == d
  {
    hide After;
    var s := After(actions).ledger;
    assert c in {c, d} && d in {c, d};
    CallIsNamed(actions, c);
    CallIsNamed(actions, d);
    OperationsAreThese(s.calls[c].request.operation);
    OperationsAreThese(s.calls[d].request.operation);
    Authority.LedgerAlways(actions);
    LedgerProofs.HeldBy(s, c);
    LedgerProofs.HeldBy(s, d);
  }

  /**
   In every history: nothing that may alter a host is let through while an outcome of the task on
   some host is in doubt.
   */
  lemma NoChangeInDoubt(actions: seq<Action>, i: nat, c: nat, id: string, r: Request, q: L.Result)
    requires Taken(actions, i, Tool(c, id, r)) && id in After(actions[..i]).runs
    requires r.operation in
               {"shell", "terminal_write", "upload_local", "file_write", "service_restart", "package_install"}
    requires q in ResultsOf(After(actions[..i]).ledger.rows, id)
    requires q.request.operation !in {"local_stat", "local_list", "local_read"}
    ensures !q.status.Running? && !q.status.Unknown?
  {
    hide After, Judgement, ResultsOf, Remote;
    var w := After(actions[..i]);
    OperationsAreThese(r.operation);
    OperationsAreThese(q.request.operation);
    Authority.AlwaysFiled(actions[..i]);
    Authority.FiledId(w, id);
    assert q in Remote(ResultsOf(w.ledger.rows, id));
  }

  /** The operations whose output may count as a look at a host. */
  predicate IsALook(op: string) {
    op == "observe" || op == "service_status" || op == "logs" || op == "file_read" || op == "file_hash"
  }

  lemma ShowsALook(r: L.Result, expected: string)
    requires Shows(r, expected) && IsNamed(r.request.operation) && !L.IsLocal(r.request.operation)
    ensures IsALook(r.request.operation) && r.status == L.Succeeded
  {
    hide Contains;
    OperationsAreThese(r.request.operation);
    var op := r.request.operation;
    assert op == "terminal_connect" || op == "terminal_read" ==> "terminal_" <= op;
  }

  /**
   In every history: when a run marks its task as completed, the last thing done on each host is one
   of the five looks, and it has succeeded.
   */
  lemma CompletionRestsOnLooks(actions: seq<Action>, n: nat, id: string, cause: Cause, i: nat)
    requires Taken(actions, n, EndRun(id, cause)) && Completion.IsCompleted(After(actions[..n + 1]), id)
    requires Completion.LastOnHost(Completion.RemoteOf(After(actions[..n + 1]).ledger.rows, id), i)
    ensures var r := Completion.RemoteOf(After(actions[..n + 1]).ledger.rows, id)[i];
            && IsALook(r.request.operation) && r.status == L.Succeeded
  {
    hide After, Shows, Remote, ResultsOf, IsNamed, IsALook;
    var w := After(actions[..n + 1]);
    Completion.CompletionIsEarned(actions, n, id, cause);
    var results := ResultsOf(w.ledger.rows, id);
    var r := Remote(results)[i];
    assert r in Remote(results);
    var k :| 0 <= k < |results| && results[k] == r;
    var m := ResultIsRow(w.ledger.rows, id, k);
    RowIsNamed(actions[..n + 1], m);
    Authority.LedgerAlways(actions[..n + 1]);
    ShowsALook(r, w.verified[(id, r.request.hostId)].expected);
  }

  // ------------------------------------------------------------------- outcomes

  /**
   What becomes of an execution that fails: it is in doubt exactly if there is no exit status and
   the operation is none of the seven that leave no doubt.
   */
  lemma DoubtIsKept(op: string, exitCode: int)
    ensures L.FinalStatus(op, true, exitCode) == L.Unknown
            <==> exitCode < 0
                 && op !in {"local_stat", "local_list", "local_read",
                            "file_hash", "file_read", "terminal_read", "terminal_connect"}
    ensures L.FinalStatus(op, true, exitCode) != L.Succeeded && L.FinalStatus(op, false, exitCode) == L.Succeeded
    ensures MayAlter(op) && exitCode < 0 ==> L.FinalStatus(op, true, exitCode) == L.Unknown
  {
  }

  // ------------------------------------------------------------- end of a run

  /** The end of a run stores its own copy of the task, with a status and nothing else new. */
  lemma EndStores(w: World, id: string, cause: Cause)
    requires Enabled(w, EndRun(id, cause))
    ensures id in w.runs
    ensures var v := Apply(w, EndRun(id, cause));
            && v.tasks == w.tasks[id := w.runs[id].task.(status := Ended(w, id, cause))]
            && v.runs == w.runs - {id} && v.ledger == w.ledger && v.verified == w.verified
  {
    hide Ended, Busy, CanServe, Serve, L.Apply, L.Enabled;
  }

  /** Which end of a run gives a task which status. */
  lemma StatusAtEnd(w: World, id: string, cause: Cause)
    requires id in w.runs
    ensures var run := w.runs[id];
            var results := ResultsOf(w.ledger.rows, id);
            var status := Ended(w, id, cause);
            var normally := !run.pending && cause == Clean;
            var talk := run.task.conversation && forall q | q in results :: StaysHere(q.request.operation);
            && (status == AwaitingApproval <==> run.pending)
            && (status == Interrupted <==> !run.pending && (cause == Cancelled || cause == Exited))
            && (status == Policy.Blocked <==> !run.pending && cause == BlockedTurn)
            && (status == HasFailed <==> !run.pending && cause == Erred)
            && (status == IsReady <==> normally && talk)
            && (status == Completed <==> normally && !talk && AllVerified(id, results, w.verified))
            && (status == NeedsVerification <==> normally && !talk && !AllVerified(id, results, w.verified))
  {
    hide AllVerified, ResultsOf, Remote, StaysHere, L.IsLocal;
    var results := ResultsOf(w.ledger.rows, id);
    forall q | q in results
      ensures L.IsLocal(q.request.operation) <==> StaysHere(q.request.operation)
    {
      OperationsAreThese(q.request.operation);
    }
    NothingRemote(results);
  }

  lemma NothingRemote(results: seq<L.Result>)
    ensures Remote(results) == [] <==> forall q | q in results :: L.IsLocal(q.request.operation)
  {
    hide L.IsLocal;
    if Remote(results) != [] {
      assert Remote(results)[0] in Remote(results);
    }
  }

  /** A renewed grant lets nothing through that it did not name before, and nothing after eight hours. */
  lemma RenewalIsBounded(w: World, t: Task, g: nat, h: Host, r: Request, now: int)
    ensures var renewed := Renewed(w, t, g);
            && (now >= w.now + 8 * 60 * 60 ==> Evaluate(renewed, h, r, now).Denied?)
            && renewed.grant.hostIds == t.grant.hostIds && renewed.grant.operations == t.grant.operations
            && renewed.grant.resources == t.grant.resources && renewed.grant.localRoots == t.grant.localRoots
            && renewed.id == t.id && renewed.conversation == t.conversation && renewed.current
            && (renewed.status == if t.current then t.status else Interrupted)
            && (forall x | x in t.grant.hostIds && x in w.hosts ::
                  x in renewed.grant.identities && renewed.grant.identities[x] == w.hosts[x])
  {
    hide Evaluate;
    var ids := set i | 0 <= i < |t.grant.hostIds| && t.grant.hostIds[i] in w.hosts :: t.grant.hostIds[i];
    forall x | x in t.grant.hostIds && x in w.hosts
      ensures x in ids
    {
      var i :| 0 <= i < |t.grant.hostIds| && t.grant.hostIds[i] == x;
    }
    ScopeIsExact(Renewed(w, t, g), h, r, now);
  }
}
