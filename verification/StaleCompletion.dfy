/** A history in which a stale renewal marks a task as completed while a run of it is under way. */
module StaleCompletion {
  import L = Ledger
  import opened Policy
  import opened StoreObject
  import opened Verification
  import opened World
  import ExecutorObject
  import Authority
  import Renewal
  import WorldSteps
  import opened Completion
  import opened StaleCopies

  const LOOKING_TASK := TASK.(grant := GRANT.(operations := ["observe"]))
  const LOOK: L.Request := L.Request("t", "look", "", "", "h", "observe", "", "", "", "", 0, "", "", "", 0)
  const FOUND: L.Result := L.Result(0, LOOK, L.Succeeded, 0, "ok", true, 0)

  /** The world once the task has been made, with what its run has recorded so far. */
  function With(rows: seq<L.Row>, issued: set<nat>, log: seq<nat>, status: TaskStatus): World {
    BEGINNING.(ledger := ExecutorObject.Alone(rows, issued, log), hosts := map["h" := HOST],
               tasks := map["t" := LOOKING_TASK.(status := status)], grants := {0})
  }

  const FIRST: World := With([], {}, [], IsReady)
  const SEEN: seq<L.Row> := [L.Row(LOOK, FOUND)]
  const RUN: Run := Run(LOOKING_TASK.(status := IsRunning), false)

  const MADE: seq<Action> := [Restart, SetHost(HOST), Create(LOOKING_TASK)]

  lemma Made()
    ensures After(MADE) == FIRST
  {
    hide After, L.Apply, L.Enabled;
    FromNothing();
    Goes([], Restart);
    Goes([Restart], SetHost(HOST));
    Goes([Restart, SetHost(HOST)], Create(LOOKING_TASK));
    Restarts();
    assert [] + [Restart] == [Restart];
    assert [Restart] + [SetHost(HOST)] == [Restart, SetHost(HOST)];
    assert [Restart, SetHost(HOST)] + [Create(LOOKING_TASK)] == MADE;
  }

  // ------------------------------------------------------------ the execution

  /** The run of the task, with the ledger as it is while its only call goes on. */
  function Amid(l: L.Ledger): World {
    Running(FIRST, LOOKING_TASK).(ledger := l, calls := map[0 := RUN.task])
  }

  lemma LookIsAllowed(w: World, t: Task, r: L.Request)
    requires w.hosts == map["h" := HOST] && w.now == 0 && t.id == "t" && t.grant == LOOKING_TASK.grant
    requires r == LOOK.(callId := r.callId)
    ensures MayChange(w, t, r) && Judgement(w, t, r).Allowed?
  {
    hide ResultsOf, Remote;
  }

  lemma ToolStep()
    ensures Step(Running(FIRST, LOOKING_TASK), Tool(0, "t", LOOK))
            == Amid(ExecutorObject.During([], {}, [], LOOK, L.Entered, L.Intent(0, LOOK, 0)))
  {
    hide Judgement, MayChange, CanServe, Serve;
    LookIsAllowed(Running(FIRST, LOOKING_TASK), RUN.task, LOOK);
    assert !L.Mutates(LOOK.operation);
  }

  lemma GuardStep(l: L.Ledger)
    requires L.Enabled(l, L.Authorise(0)) && l.calls[0].request == LOOK
    ensures Step(Amid(l), Guard(0)) == Amid(ExecutorObject.Step(l, L.Authorise(0)))
  {
    hide Judgement, MayChange, CanServe, Serve, L.Apply;
    LookIsAllowed(Amid(l), RUN.task, LOOK);
  }

  lemma CallStep(l: L.Ledger, b: L.Action)
    requires Plain(b)
    ensures Step(Amid(l), Do(b)) == Amid(ExecutorObject.Step(l, b))
  {
    hide L.Apply, L.Enabled, CanServe, Serve, Plain;
  }

  const CALL: seq<Action> :=
    [Tool(0, "t", LOOK), Guard(0), Do(L.Insert(0, 0, 0)), Do(L.Select(0)), Do(L.Save(0)), Do(L.Dispatch(0)),
     Do(L.Settle(0, false, 0, "ok")), Do(L.Release(0))]

  const ANSWER := ExecutorObject.Answer(false, 0, "ok")

  lemma LedgerOfCall()
    ensures var entered := ExecutorObject.During([], {}, [], LOOK, L.Entered, L.Intent(0, LOOK, 0));
            var selected := ExecutorObject.Step(ExecutorObject.Step(ExecutorObject.Step(entered, L.Authorise(0)),
                                                L.Insert(0, 0, 0)), L.Select(0));
            var settled := ExecutorObject.Step(ExecutorObject.Step(ExecutorObject.Step(selected, L.Save(0)), L.Dispatch(0)),
                                               L.Settle(0, false, 0, "ok"));
            && L.Enabled(entered, L.Authorise(0)) && entered.calls[0].request == LOOK
            && ExecutorObject.Step(settled, L.Release(0)) == ExecutorObject.Alone(SEEN, {0}, [0])
  {
    hide ExecutorObject.Step, L.RowsOk, L.InsertRow;
    NoRows();
    EnteredIs();
    ExecutorObject.Enters([], {}, [], LOOK, 0, 0);
    ExecutorObject.Selects([], {}, [], LOOK, 0, 0);
    ExecutorObject.Carries([], {}, [], LOOK, 0, 0, ANSWER);
    assert ExecutorObject.CarriedOut(L.Intent(0, LOOK, 0), ANSWER) == FOUND;
    assert {} + {0} == {0} && [] + [0] == [0] && [] + [L.Row(LOOK, FOUND)] == SEEN;
    assert [] + [L.Row(LOOK, L.Intent(0, LOOK, 0))] == [L.Row(LOOK, L.Intent(0, LOOK, 0))];
    ExecutorObject.Releases(SEEN, {0}, [0], LOOK, FOUND);
  }

  lemma NoRows()
    ensures L.RowsOk([], {}) && L.Find([], LOOK) == 0
  {
  }

  lemma EnteredIs()
    ensures L.Enabled(ExecutorObject.During([], {}, [], LOOK, L.Entered, L.Intent(0, LOOK, 0)), L.Authorise(0))
  {
  }

  lemma Calls(before: seq<Action>)
    requires After(before) == Running(FIRST, LOOKING_TASK)
    ensures After(before + CALL) == Amid(ExecutorObject.Alone(SEEN, {0}, [0]))
  {
    hide After, Step, ExecutorObject.Step, ExecutorObject.During, L.Enabled;
    LedgerOfCall();
    ToolStep();
    var entered := ExecutorObject.During([], {}, [], LOOK, L.Entered, L.Intent(0, LOOK, 0));
    GuardStep(entered);
    var l := ExecutorObject.Step(entered, L.Authorise(0));
    assert before + CALL[..0] == before;
    Goes(before + CALL[..0], CALL[0]);
    assert before + CALL[..1] == before + CALL[..0] + [CALL[0]];
    Goes(before + CALL[..1], CALL[1]);
    assert before + CALL[..2] == before + CALL[..1] + [CALL[1]];
    for i := 2 to 8
      invariant After(before + CALL[..i]) == Amid(l)
      invariant l == LedgerUpTo(entered, i)
    {
      CallStep(l, CALL[i].step);
      Goes(before + CALL[..i], CALL[i]);
      assert before + CALL[..i + 1] == before + CALL[..i] + [CALL[i]];
      l := ExecutorObject.Step(l, CALL[i].step);
    }
    assert CALL[..8] == CALL;
    UpToEight(entered);
  }

  /** The ledger behind the first `n` actions of the call, the tool call itself apart. */
  function LedgerUpTo(l: L.Ledger, n: nat): L.Ledger
    requires 2 <= n <= 8
  {
    if n == 2 then ExecutorObject.Step(l, L.Authorise(0)) else ExecutorObject.Step(LedgerUpTo(l, n - 1), CALL[n - 1].step)
  }

  lemma UpToEight(l: L.Ledger)
    ensures LedgerUpTo(l, 8)
            == ExecutorObject.Step(ExecutorObject.Step(ExecutorObject.Step(ExecutorObject.Step(ExecutorObject.Step(
                 ExecutorObject.Step(ExecutorObject.Step(l, L.Authorise(0)), L.Insert(0, 0, 0)), L.Select(0)), L.Save(0)),
                 L.Dispatch(0)), L.Settle(0, false, 0, "ok")), L.Release(0))
  {
    hide ExecutorObject.Step;
    assert LedgerUpTo(l, 3) == ExecutorObject.Step(LedgerUpTo(l, 2), CALL[2].step);
    assert LedgerUpTo(l, 4) == ExecutorObject.Step(LedgerUpTo(l, 3), CALL[3].step);
    assert LedgerUpTo(l, 5) == ExecutorObject.Step(LedgerUpTo(l, 4), CALL[4].step);
    assert LedgerUpTo(l, 6) == ExecutorObject.Step(LedgerUpTo(l, 5), CALL[5].step);
    assert LedgerUpTo(l, 7) == ExecutorObject.Step(LedgerUpTo(l, 6), CALL[6].step);
  }

  // ---------------------------------------------------------------- completion

  lemma OneRow(row: L.Row)
    ensures ResultsOf([row], row.digest.taskId) == [row.payload]
  {
    assert [row][..0] == [];
    assert ResultsOf([row][..0], row.digest.taskId) == [];
  }

  lemma OneRemote(r: L.Result)
    requires !L.IsLocal(r.request.operation)
    ensures Remote([r]) == [r] && Latest([r]) == map[r.request.hostId := r]
  {
    assert [r][..0] == [];
    assert Remote([r][..0]) == [] && Latest([r][..0]) == map[];
  }

  lemma ShowsItself(s: string)
    ensures Contains(s, s)
  {
    assert s <= s[0..];
  }

  lemma OneResult()
    ensures ResultsOf(SEEN, "t") == [FOUND] && Remote([FOUND]) == [FOUND] && Latest([FOUND]) == map["h" := FOUND]
    ensures Acceptable(["h"], [FOUND], FOUND, "ok")
  {
    hide ResultsOf, Remote, Latest, Contains;
    OneRow(SEEN[0]);
    OneRemote(FOUND);
    ShowsItself("ok");
  }

  /** The task as it is when its run has ended. */
  const DONE: World := With(SEEN, {0}, [0], Completed).(calls := map[0 := RUN.task], verified := map[("t", "h") := Evidence(0, "ok")])

  lemma VerifyStep()
    ensures Step(Amid(ExecutorObject.Alone(SEEN, {0}, [0])), Verify("t", true, 0, "ok"))
            == Amid(ExecutorObject.Alone(SEEN, {0}, [0])).(verified := map[("t", "h") := Evidence(0, "ok")])
  {
    hide ResultsOf, Acceptable, CanServe, Serve;
    OneResult();
    var w := Amid(ExecutorObject.Alone(SEEN, {0}, [0]));
    assert FOUND in ResultsOf(w.ledger.rows, "t");
    assert HostOf(w, "t", 0) == "h";
  }

  lemma DoneStep()
    ensures Step(Amid(ExecutorObject.Alone(SEEN, {0}, [0])).(verified := map[("t", "h") := Evidence(0, "ok")]), EndRun("t", Clean))
            == DONE
  {
    hide ResultsOf, Remote, Latest, CanServe, Serve;
    OneResult();
    var w := Amid(ExecutorObject.Alone(SEEN, {0}, [0])).(verified := map[("t", "h") := Evidence(0, "ok")]);
    assert NoneOpen([FOUND]);
    assert AllVerified("t", [FOUND], w.verified);
    assert !Busy(w, "t");
    assert w.runs - {"t"} == map[];
  }

  /** A run looks at the host, the look is verified, and the task is completed. */
  const COMPLETING: seq<Action> :=
    MADE + [User(LoadStart("t")), User(StoreStart)] + CALL + [Verify("t", true, 0, "ok"), EndRun("t", Clean)]

  lemma MayLook()
    ensures Enabled(FIRST, User(LoadStart("t"))) && Enabled(DONE, User(LoadStart("t")))
  {
  }

  lemma Completes()
    ensures After(COMPLETING) == DONE
  {
    hide After, Step, Enabled;
    Made();
    MayLook();
    Starts(MADE, FIRST, "t");
    var started := MADE + [User(LoadStart("t")), User(StoreStart)];
    Calls(started);
    VerifyStep();
    DoneStep();
    Goes(started + CALL, Verify("t", true, 0, "ok"));
    Goes(started + CALL + [Verify("t", true, 0, "ok")], EndRun("t", Clean));
    assert COMPLETING == started + CALL + [Verify("t", true, 0, "ok")] + [EndRun("t", Clean)];
  }

  // -------------------------------------------------------------- the renewal

  /** The renewal reads the completed task, a new run begins, and the renewal stores what it has read. */
  const STALE_RENEWAL: seq<Action> :=
    COMPLETING + [User(LoadResume(1, "t")), User(CheckResume(1)), User(LoadStart("t")), User(StoreStart),
                  User(StoreResume(1, 1))]

  lemma ReadSteps()
    ensures Step(Step(DONE, User(LoadResume(1, "t"))), User(CheckResume(1)))
            == DONE.(errands := map[1 := Resuming(DONE.tasks["t"], true)])
  {
    hide Step, ResultsOf;
    OneResult();
    WorldSteps.ReadIs(DONE, 1, "t");
    WorldSteps.CheckIs(DONE.(errands := map[1 := Resuming(DONE.tasks["t"], false)]), 1, DONE.tasks["t"]);
  }

  /** The task is marked as completed, and the run of it is between two calls. */
  predicate Misled(w: World) {
    && w.ledger == ExecutorObject.Alone(SEEN, {0}, [0]) && w.hosts == map["h" := HOST] && w.now == 0
    && "t" in w.runs && w.runs["t"] == RUN && IsCompleted(w, "t")
  }

  lemma RunAndStore(w: World)
    requires w == DONE.(errands := map[1 := Resuming(DONE.tasks["t"], true)])
    ensures Enabled(w, User(LoadStart("t")))
    ensures var v := Running(w, w.tasks["t"]);
            && Enabled(v, User(StoreResume(1, 1))) && Stale(v, User(StoreResume(1, 1)))
            && Misled(Step(v, User(StoreResume(1, 1))))
  {
    hide L.Apply, L.Enabled, ResultsOf, AllVerified;
  }

  /** A task that is marked as completed, with a run under way that may do anything its grant allows. */
  lemma StaleRenewalMisleads()
    ensures var w := After(STALE_RENEWAL); IsCompleted(w, "t") && "t" in w.runs && !Covered(w, "t") && Misled(w)
  {
    hide After, Step, Enabled, Renewed, Covered, Stale;
    Completes();
    ReadSteps();
    var read := COMPLETING + [User(LoadResume(1, "t")), User(CheckResume(1))];
    Goes(COMPLETING, User(LoadResume(1, "t")));
    Goes(COMPLETING + [User(LoadResume(1, "t"))], User(CheckResume(1)));
    assert COMPLETING + [User(LoadResume(1, "t"))] + [User(CheckResume(1))] == read;
    var w := After(read);
    RunAndStore(w);
    Starts(read, w, "t");
    var started := read + [User(LoadStart("t")), User(StoreStart)];
    Goes(started, User(StoreResume(1, 1)));
    assert STALE_RENEWAL == started + [User(StoreResume(1, 1))];
    NotCovered(After(STALE_RENEWAL));
  }

  lemma NotCovered(w: World)
    ensures "t" in w.runs ==> !Covered(w, "t")
  {
    hide AllVerified, ResultsOf;
  }

  // ---------------------------------------------------------------- recovery

  const AGAIN: L.Request := LOOK.(callId := "again")
  const ASKED: L.Result := L.Intent(1, AGAIN, 0)

  /** Amid a second call of that run. */
  predicate Calling(w: World, l: L.Ledger) {
    w.ledger == l && w.hosts == map["h" := HOST] && w.now == 0 && IsCompleted(w, "t")
    && 0 in w.calls && w.calls[0] == RUN.task
  }

  lemma SecondCall(w: World)
    requires Misled(w)
    ensures Calling(Step(w, Tool(0, "t", AGAIN)),
                    ExecutorObject.During(SEEN, {0}, [0], AGAIN, L.Entered, L.Intent(0, AGAIN, 0)))
  {
    hide Judgement, MayChange, CanServe, Serve, NeedsUser, Busy, ResultsOf;
    LookIsAllowed(w, RUN.task, AGAIN);
    assert !L.Mutates(AGAIN.operation);
  }

  lemma SecondGuard(w: World, l: L.Ledger)
    requires Calling(w, l) && L.Enabled(l, L.Authorise(0)) && l.calls[0].request == AGAIN
    ensures Calling(Step(w, Guard(0)), ExecutorObject.Step(l, L.Authorise(0)))
  {
    hide Judgement, MayChange, CanServe, Serve, NeedsUser, Busy, ResultsOf, L.Apply;
    LookIsAllowed(w, RUN.task, AGAIN);
  }

  lemma SecondStep(w: World, l: L.Ledger, b: L.Action)
    requires Calling(w, l) && Plain(b)
    ensures Calling(Step(w, Do(b)), ExecutorObject.Step(l, b))
  {
    hide L.Apply, L.Enabled, CanServe, Serve, Plain, Judgement, NeedsUser, Busy, ResultsOf;
  }

  const SENT: L.Row := L.Row(AGAIN, ASKED.(artifact := true))

  lemma LedgerOfSecond()
    ensures var entered := ExecutorObject.During(SEEN, {0}, [0], AGAIN, L.Entered, L.Intent(0, AGAIN, 0));
            var selected := ExecutorObject.Step(ExecutorObject.Step(ExecutorObject.Step(entered, L.Authorise(0)),
                                                L.Insert(0, 1, 0)), L.Select(0));
            var sent := ExecutorObject.Step(ExecutorObject.Step(selected, L.Save(0)), L.Dispatch(0));
            && L.Enabled(entered, L.Authorise(0)) && entered.calls[0].request == AGAIN
            && sent.up && sent.rows == SEEN + [SENT] && sent.log == [0] + [1]
  {
    hide ExecutorObject.Step, L.InsertRow;
    OneRowFound();
    ExecutorObject.Enters(SEEN, {0}, [0], AGAIN, 1, 0);
    ExecutorObject.Selects(SEEN, {0}, [0], AGAIN, 1, 0);
    ExecutorObject.Saves(SEEN, {0}, [0], ASKED);
    ExecutorObject.Dispatches(SEEN + [SENT], {0} + {1}, [0], ASKED.(artifact := true));
  }

  lemma OneRowFound()
    ensures L.RowsOk(SEEN, {0}) && L.Find(SEEN, AGAIN) == |SEEN|
  {
    assert !L.SameCall(SEEN[0].digest, AGAIN);
    assert SEEN[1..] == [];
  }

  const SECOND: seq<Action> :=
    [Tool(0, "t", AGAIN), Guard(0), Do(L.Insert(0, 1, 0)), Do(L.Select(0)), Do(L.Save(0)), Do(L.Dispatch(0))]

  /** The run dispatches a second call. */
  lemma Dispatching(before: seq<Action>)
    requires Misled(After(before))
    ensures var w := After(before + SECOND);
            w.ledger.up && w.ledger.rows == SEEN + [SENT] && IsCompleted(w, "t")
  {
    hide After, Step, ExecutorObject.Step, ExecutorObject.During, L.Enabled;
    LedgerOfSecond();
    var entered := ExecutorObject.During(SEEN, {0}, [0], AGAIN, L.Entered, L.Intent(0, AGAIN, 0));
    SecondCall(After(before));
    Goes(before, SECOND[0]);
    assert before + SECOND[..1] == before + [SECOND[0]];
    SecondGuard(After(before + SECOND[..1]), entered);
    Goes(before + SECOND[..1], SECOND[1]);
    assert before + SECOND[..2] == before + SECOND[..1] + [SECOND[1]];
    var l := ExecutorObject.Step(entered, L.Authorise(0));
    for i := 2 to 6
      invariant Calling(After(before + SECOND[..i]), l)
      invariant l == SecondUpTo(entered, i)
    {
      SecondStep(After(before + SECOND[..i]), l, SECOND[i].step);
      Goes(before + SECOND[..i], SECOND[i]);
      assert before + SECOND[..i + 1] == before + SECOND[..i] + [SECOND[i]];
      l := ExecutorObject.Step(l, SECOND[i].step);
    }
    assert SECOND[..6] == SECOND;
    UpToSix(entered);
  }

  function SecondUpTo(l: L.Ledger, n: nat): L.Ledger
    requires 2 <= n <= 6
  {
    if n == 2 then ExecutorObject.Step(l, L.Authorise(0)) else ExecutorObject.Step(SecondUpTo(l, n - 1), SECOND[n - 1].step)
  }

  lemma UpToSix(l: L.Ledger)
    ensures SecondUpTo(l, 6)
            == ExecutorObject.Step(ExecutorObject.Step(ExecutorObject.Step(ExecutorObject.Step(
                 ExecutorObject.Step(l, L.Authorise(0)), L.Insert(0, 1, 0)), L.Select(0)), L.Save(0)), L.Dispatch(0))
  {
    hide ExecutorObject.Step;
    assert SecondUpTo(l, 3) == ExecutorObject.Step(SecondUpTo(l, 2), SECOND[2].step);
    assert SecondUpTo(l, 4) == ExecutorObject.Step(SecondUpTo(l, 3), SECOND[3].step);
    assert SecondUpTo(l, 5) == ExecutorObject.Step(SecondUpTo(l, 4), SECOND[4].step);
  }

  lemma CrashStep(w: World)
    requires w.ledger.up
    ensures var x := Step(w, Crash); x.tasks == w.tasks && x.ledger.rows == w.ledger.rows && !x.ledger.up
  {
    hide CanServe, Serve, Cleared, NeedsUser, Judgement, Acceptable, ResultsOf, HostOf, Busy;
  }

  lemma RecoverStep(w: World, i: nat)
    requires !w.ledger.up && i < |w.ledger.rows| && w.ledger.rows[i].payload.status.Running?
    ensures var x := Step(w, Do(L.RecoverRow(i)));
            && x.tasks == w.tasks && !x.ledger.up
            && x.ledger.rows == L.FinishRow(w.ledger.rows, w.ledger.rows[i].payload.(status := L.Unknown))
  {
    hide CanServe, Serve, Cleared, NeedsUser, Judgement, Acceptable, ResultsOf, HostOf, Busy;
  }

  lemma RestartIs(w: World)
    requires L.Enabled(w.ledger, L.Restart)
    ensures Step(w, Restart) == w.(ledger := w.ledger.(up := true),
                                   tasks := map id | id in w.tasks :: RecoveredTask(w.tasks[id]))
  {
    hide L.Enabled, CanServe, Serve, Cleared, NeedsUser, Judgement, Acceptable, ResultsOf, HostOf, Busy, RecoveredTask;
  }

  lemma RestartStep(w: World, id: string)
    requires IsCompleted(w, id) && !w.ledger.up
    requires forall i | 0 <= i < |w.ledger.rows| :: !w.ledger.rows[i].payload.status.Running?
    ensures var x := Step(w, Restart); IsCompleted(x, id) && x.ledger.rows == w.ledger.rows && x.ledger.up
  {
    hide Step;
    RestartIs(w);
  }

  const LOST: L.Row := SENT.(payload := SENT.payload.(status := L.Unknown))

  lemma Recovers(w: World)
    requires w.ledger.up && w.ledger.rows == SEEN + [SENT] && IsCompleted(w, "t")
    ensures var x := Step(Step(Step(w, Crash), Do(L.RecoverRow(1))), Restart);
            x.ledger.up && x.ledger.rows == SEEN + [LOST] && IsCompleted(x, "t")
  {
    hide Step;
    CrashStep(w);
    RecoverStep(Step(w, Crash), 1);
    assert L.FinishRow(SEEN + [SENT], LOST.payload) == SEEN + [LOST];
    RestartStep(Step(Step(w, Crash), Do(L.RecoverRow(1))), "t");
  }

  /** The program ends while that run has a call dispatched, and is started again. */
  const RECOVERED: seq<Action> := STALE_RENEWAL + SECOND + [Crash, Do(L.RecoverRow(1)), Restart]

  /** Recovery leaves the task completed, and the outcome of one of its own executions is unknown. */
  lemma RecoveryLeavesCompleted()
    ensures var w := After(RECOVERED);
            && w.ledger.up && IsCompleted(w, "t")
            && exists r :: r in ResultsOf(w.ledger.rows, "t") && r.status.Unknown? && !L.IsLocal(r.request.operation)
  {
    hide After, Step;
    hide Misled;
    StaleRenewalMisleads();
    Dispatching(STALE_RENEWAL);
    var sent := STALE_RENEWAL + SECOND;
    Recovers(After(sent));
    Goes(sent, Crash);
    Goes(sent + [Crash], Do(L.RecoverRow(1)));
    Goes(sent + [Crash] + [Do(L.RecoverRow(1))], Restart);
    assert RECOVERED == sent + [Crash] + [Do(L.RecoverRow(1))] + [Restart];
    LostIsResult();
  }

  lemma LostIsResult()
    ensures LOST.payload in ResultsOf(SEEN + [LOST], "t")
  {
    assert (SEEN + [LOST])[..1] == SEEN;
  }
}
