/** What the ledger says of an execution, before, during and after it. */
module LedgerLaws {
  import opened Ledger
  import opened LedgerProofs

  // -------------------------------------------------------------- before it runs

  /** A call that may dispatch, or has, names the artifact its output goes to. */
  predicate NamesArtifact(c: Call) { c.phase.Saved? || c.phase.Dispatched? ==> c.result.artifact }

  /** So does the row of everything that was dispatched. */
  ghost predicate Kept(s: Ledger) {
    && (forall c | c in s.calls :: NamesArtifact(s.calls[c]))
    && (forall i | 0 <= i < |s.rows| && s.rows[i].payload.id in s.log :: s.rows[i].payload.artifact)
  }

  lemma OthersName(s: Ledger, a: Action, c: nat)
    requires Enabled(s, a) && (c in s.calls ==> NamesArtifact(s.calls[c])) && c in Apply(s, a).calls
    ensures NamesArtifact(Apply(s, a).calls[c])
  {
    hide Find, InsertRow, FinishRow, Identified, FinalStatus;
  }

  /** Replacing the result of a call that is not dispatched, or that names its artifact, keeps the rows in order. */
  lemma RecordedNames(s: Ledger, r: Result)
    requires Kept(s) && (r.id in s.log ==> r.artifact)
    ensures forall i | 0 <= i < |s.rows| && FinishRow(s.rows, r)[i].payload.id in s.log ::
              FinishRow(s.rows, r)[i].payload.artifact
  {
  }

  lemma InsertedNames(s: Ledger, r: Result)
    requires Kept(s) && r.id !in s.log
    ensures forall i | 0 <= i < |InsertRow(s.rows, r)| && InsertRow(s.rows, r)[i].payload.id in s.log ::
              InsertRow(s.rows, r)[i].payload.artifact
  {
  }

  lemma DispatchNames(s: Ledger, c: nat)
    requires Inv(s) && Kept(s) && Enabled(s, Dispatch(c))
    ensures Kept(Apply(s, Dispatch(c)))
  {
    hide RowsOk, LogOk, LocksOk;
    var t := Apply(s, Dispatch(c));
    assert CallOk(s.rows, s.issued, s.log, s.calls[c]) && NamesArtifact(s.calls[c]);
    forall i | 0 <= i < |t.rows| && t.rows[i].payload.id in t.log
      ensures t.rows[i].payload.artifact
    {
      assert t.rows[i].payload.id in s.log || t.rows[i].payload.id == s.calls[c].result.id;
    }
    forall d | d in t.calls
      ensures NamesArtifact(t.calls[d])
    {
      OthersName(s, Dispatch(c), d);
    }
  }

  lemma KeptStep(s: Ledger, a: Action)
    requires Inv(s) && Kept(s) && Enabled(s, a)
    ensures Kept(Apply(s, a))
  {
    hide RowsOk, LocksOk, Find, InsertRow, FinishRow, Identified, FinalStatus, NamesArtifact;
    forall c | c in Apply(s, a).calls
      ensures NamesArtifact(Apply(s, a).calls[c])
    {
      OthersName(s, a, c);
    }
    match a
    case Insert(c, id, now) => InsertedNames(s, Intent(id, s.calls[c].request, now));
    case Save(c) => RecordedNames(s, s.calls[c].result.(artifact := true));
    case NoArtifact(c) =>
      assert CallOk(s.rows, s.issued, s.log, s.calls[c]);
      RecordedNames(s, s.calls[c].result.(status := Failed));
    case Settle(c, failed, exitCode, output) =>
      SettledNames(s, c);
      var status := FinalStatus(s.calls[c].request.operation, failed, exitCode);
      RecordedNames(s, s.calls[c].result.(status := status, exitCode := exitCode, output := output));
    case Dispatch(c) => DispatchNames(s, c);
    case RecoverRow(i) => RecordedNames(s, s.rows[i].payload.(status := Unknown));
    case _ =>
  }

  lemma SettledNames(s: Ledger, c: nat)
    requires Kept(s) && c in s.calls && s.calls[c].phase.Dispatched?
    ensures s.calls[c].result.artifact
  {
    assert NamesArtifact(s.calls[c]);
  }

  lemma {:induction false} AlwaysKept(actions: seq<Action>)
    ensures Kept(Run(actions))
  {
    hide Inv, Enabled, Apply, Kept;
    if actions == [] {
      NothingKept();
    } else {
      var s := Run(actions[..|actions| - 1]);
      AlwaysKept(actions[..|actions| - 1]);
      RunKeeps(actions[..|actions| - 1]);
      if Enabled(s, actions[|actions| - 1]) {
        KeptStep(s, actions[|actions| - 1]);
      }
    }
  }

  lemma NothingKept()
    ensures Kept(EMPTY)
  {
  }

  /**
   In every history, when a request is dispatched its intention is on record: there is a row for
   just this request, marked as running, that names an artifact and was not dispatched before.
   */
  lemma DispatchIsOnRecord(actions: seq<Action>, c: nat) returns (i: nat)
    requires Enabled(Run(actions), Dispatch(c))
    ensures var s := Run(actions);
            && c in s.calls && i < |s.rows| && s.rows[i].digest == s.calls[c].request
            && s.rows[i].payload == s.calls[c].result && s.rows[i].payload.request == s.calls[c].request
            && s.rows[i].payload.status == Running && s.rows[i].payload.artifact && s.rows[i].payload.id !in s.log
  {
    hide Run, LogOk, LocksOk;
    RunKeeps(actions);
    AlwaysKept(actions);
    var s := Run(actions);
    assert CallOk(s.rows, s.issued, s.log, s.calls[c]) && NamesArtifact(s.calls[c]);
    i :| 0 <= i < |s.rows| && s.rows[i].payload.id == s.calls[c].result.id;
  }

  // ------------------------------------------------------------------ afterwards

  /** Two states of the rows that differ in one result at most. */
  ghost predicate OnlyChanged(a: seq<Row>, b: seq<Row>, i: nat, r: Result) {
    |a| == |b| && i < |a| && b == a[i := Row(a[i].digest, r)]
  }

  lemma OneRowReplaced(rows: seq<Row>, issued: set<nat>, i: nat, r: Result)
    requires RowsOk(rows, issued) && i < |rows| && rows[i].payload.id == r.id
    ensures OnlyChanged(rows, FinishRow(rows, r), i, r)
  {
  }

  /**
   In every history, when a dispatched request comes back, its own row gets the outcome and no other
   row changes: an error without exit status leaves the outcome unknown, unless nothing could change.
   */
  lemma OutcomeIsRecorded(actions: seq<Action>, c: nat, failed: bool, exitCode: int, output: string) returns (i: nat)
    requires Enabled(Run(actions), Settle(c, failed, exitCode, output))
    ensures var s := Run(actions);
            && c in s.calls && i < |s.rows| && s.rows[i].digest == s.calls[c].request && s.rows[i].payload.status == Running
            && var status := if !failed then Succeeded
                             else if exitCode >= 0 || s.calls[c].request.operation in
                                       {"local_stat", "local_list", "local_read",
                                        "file_hash", "file_read", "terminal_read", "terminal_connect"} then Failed
                             else Unknown;
               OnlyChanged(s.rows, Apply(s, Settle(c, failed, exitCode, output)).rows, i,
                           s.rows[i].payload.(status := status, exitCode := exitCode, output := output))
  {
    hide Run, LogOk, LocksOk, FinishRow, OnlyChanged;
    RunKeeps(actions);
    var s := Run(actions);
    assert CallOk(s.rows, s.issued, s.log, s.calls[c]);
    i :| 0 <= i < |s.rows| && s.rows[i].payload.id == s.calls[c].result.id;
    var status := FinalStatus(s.calls[c].request.operation, failed, exitCode);
    OneRowReplaced(s.rows, s.issued, i, s.calls[c].result.(status := status, exitCode := exitCode, output := output));
  }

  /** A request without a place for its output fails, and is not dispatched. */
  lemma NoArtifactFails(actions: seq<Action>, c: nat) returns (i: nat)
    requires Enabled(Run(actions), NoArtifact(c))
    ensures var s := Run(actions);
            var t := Apply(s, NoArtifact(c));
            && i < |s.rows| && OnlyChanged(s.rows, t.rows, i, s.rows[i].payload.(status := Failed))
            && t.log == s.log && s.rows[i].payload.id !in s.log && c in t.calls && t.calls[c].phase.Leaving?
  {
    hide Run, LogOk, LocksOk, FinishRow, OnlyChanged;
    RunKeeps(actions);
    var s := Run(actions);
    assert CallOk(s.rows, s.issued, s.log, s.calls[c]);
    i :| 0 <= i < |s.rows| && s.rows[i].payload.id == s.calls[c].result.id;
    OneRowReplaced(s.rows, s.issued, i, s.calls[c].result.(status := Failed));
  }

  // -------------------------------------------------------------------- recovery

  function From(s: Ledger, more: seq<Action>): Ledger {
    if more == [] then s else
    var t := From(s, more[..|more| - 1]);
    if Enabled(t, more[|more| - 1]) then Apply(t, more[|more| - 1]) else t
  }

  /** The same rows, but for some that were running and are unknown now. */
  predicate Marked(a: seq<Row>, b: seq<Row>) {
    |a| == |b| && forall i | 0 <= i < |a| ::
      b[i] == a[i] || (a[i].payload.status.Running? && b[i] == Row(a[i].digest, a[i].payload.(status := Unknown)))
  }

  lemma {:induction false} RecoveryOnlyMarks(s: Ledger, more: seq<Action>)
    requires !s.up && RowsOk(s.rows, s.issued) && forall a | a in more :: !a.Restart?
    ensures var t := From(s, more);
            !t.up && t.log == s.log && t.issued == s.issued && RowsOk(t.rows, t.issued) && Marked(s.rows, t.rows)
  {
    hide RowsOk, FinishRow;
    if more != [] {
      var n := |more| - 1;
      assert more[n] in more && forall a | a in more[..n] :: a in more;
      RecoveryOnlyMarks(s, more[..n]);
      var t := From(s, more[..n]);
      if Enabled(t, more[n]) {
        MarksOne(t.rows, t.issued, more[n].i);
      }
    }
  }

  lemma MarksOne(rows: seq<Row>, issued: set<nat>, i: nat)
    requires RowsOk(rows, issued) && i < |rows|
    ensures var r := rows[i].payload.(status := Unknown);
            FinishRow(rows, r) == rows[i := Row(rows[i].digest, r)] && RowsOk(FinishRow(rows, r), issued)
  {
    OneRowReplaced(rows, issued, i, rows[i].payload.(status := Unknown));
  }

  /**
   In every history: after a crash and a recovery that has come to its end, exactly the executions
   that were running have an unknown outcome, nothing else is said of any, and none was dispatched.
   */
  lemma RecoveryMarksRunning(actions: seq<Action>, more: seq<Action>)
    requires Run(actions).up && forall a | a in more :: !a.Restart?
    requires Enabled(From(Apply(Run(actions), Crash), more), Restart)
    ensures var s := Run(actions);
            var t := Apply(From(Apply(s, Crash), more), Restart);
            && t.up && t.calls == map[] && t.log == s.log && |t.rows| == |s.rows|
            && forall i | 0 <= i < |s.rows| ::
                 t.rows[i] == if s.rows[i].payload.status == Running
                              then Row(s.rows[i].digest, s.rows[i].payload.(status := Unknown)) else s.rows[i]
  {
    hide Run, RowsOk, LogOk, LocksOk, CallsOk;
    RunKeeps(actions);
    var s := Apply(Run(actions), Crash);
    RecoveryOnlyMarks(s, more);
    NobodyCalls(s, more);
  }

  lemma {:induction false} NobodyCalls(s: Ledger, more: seq<Action>)
    requires !s.up && s.calls == map[] && forall a | a in more :: !a.Restart?
    ensures !From(s, more).up && From(s, more).calls == map[]
  {
    hide FinishRow;
    if more != [] {
      var n := |more| - 1;
      assert more[n] in more && forall a | a in more[..n] :: a in more;
      NobodyCalls(s, more[..n]);
    }
  }
}
