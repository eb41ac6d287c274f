/** Histories in which a copy that was read before a renewal is stored after it. */
module StaleCopies {
  import L = Ledger
  import opened Policy
  import opened StoreObject
  import opened Verification
  import opened World
  import opened Authority
  import opened Renewal
  import opened WorldSteps

  const HOST := Host("h", "")
  const GRANT := Grant(0, ["h"], map["h" := HOST], [], [], [], 100)
  const TASK := Task("t", false, true, IsReady, GRANT)
  const COMMAND: Request := L.Request("t", "c", "", "", "h", "shell", "", "reboot", "", "", 0, "", "", "", 0)

  /** The program is up, and there are a host and a task for it. */
  const READY := BEGINNING.(ledger := L.EMPTY.(up := true), hosts := map["h" := HOST], tasks := map["t" := TASK], grants := {0})

  function Stored(status: TaskStatus): World { READY.(tasks := map["t" := TASK.(status := status)]) }

  /** The user has accepted a command under the grant, and no run is under way. */
  const ACCEPTED := Stored(AwaitingApproval).(approvals := map[COMMAND := Approval(COMMAND, 0, true, true)])

  const PREPARED: seq<Action> := [Restart, SetHost(HOST), Create(TASK)]
  const ASKED: seq<Action> := [User(LoadStart("t")), User(StoreStart), AskUser("t", COMMAND), EndRun("t", Clean)]
  const DECIDED: seq<Action> := [User(Weigh(0, COMMAND, true)), User(CheckDecision(0)), User(StoreDecision(0))]

  lemma Goes(actions: seq<Action>, a: Action)
    ensures After(actions + [a]) == Step(After(actions), a)
  {
    hide Step;
    assert (actions + [a])[..|actions|] == actions;
  }

  lemma Prepares()
    ensures After(PREPARED) == READY
  {
    hide After, L.Apply, L.Enabled;
    FromNothing();
    Goes([], Restart);
    Goes([Restart], SetHost(HOST));
    Goes([Restart, SetHost(HOST)], Create(TASK));
    Restarts();
    assert [] + [Restart] == [Restart];
    assert [Restart] + [SetHost(HOST)] == [Restart, SetHost(HOST)];
    assert [Restart, SetHost(HOST)] + [Create(TASK)] == PREPARED;
  }

  lemma FromNothing()
    ensures After([]) == BEGINNING
  {
  }

  lemma Restarts()
    ensures Step(BEGINNING, Restart) == BEGINNING.(ledger := L.EMPTY.(up := true))
  {
    FiledRestart({}, BEGINNING.tasks);
    assert L.Apply(L.EMPTY, L.Restart) == L.EMPTY.(up := true);
  }

  function Running(w: World, t: Task): World {
    w.(tasks := w.tasks[t.id := t.(status := IsRunning)], runs := w.runs[t.id := Run(t.(status := IsRunning), false)],
       starter := Free)
  }

  /** A start that nothing comes between. */
  lemma Starts(actions: seq<Action>, w: World, id: string)
    requires After(actions) == w && Enabled(w, User(LoadStart(id))) && w.tasks[id].id == id
    ensures After(actions + [User(LoadStart(id))]) == w.(starter := Starting(w.tasks[id]))
    ensures After(actions + [User(LoadStart(id)), User(StoreStart)]) == Running(w, w.tasks[id])
  {
    hide After;
    Goes(actions, User(LoadStart(id)));
    Goes(actions + [User(LoadStart(id))], User(StoreStart));
    assert actions + [User(LoadStart(id))] + [User(StoreStart)] == actions + [User(LoadStart(id)), User(StoreStart)];
  }

  lemma NoResults(id: string)
    ensures ResultsOf([], id) == [] && Remote([]) == []
  {
  }

  /** A command is never automatic, and there is nothing else against this one. */
  lemma CommandIsAsked(w: World, t: Task)
    requires w.hosts == map["h" := HOST] && w.now == 0 && w.ledger.rows == []
    requires t.id == "t" && t.grant == GRANT
    ensures MayChange(w, t, COMMAND) && Judgement(w, t, COMMAND).Ask? && !IsAttached(w, t, COMMAND)
  {
    NoResults("t");
    hide ResultsOf, Remote;
  }

  /** The run is told to wait for the user ... */
  lemma AskStep()
    ensures Step(Running(READY, TASK), AskUser("t", COMMAND))
            == Running(READY, TASK).(approvals := map[COMMAND := Approval(COMMAND, 0, false, false)],
                                     runs := map["t" := Run(TASK.(status := IsRunning), true)])
  {
    hide Judgement, MayChange, L.Apply, L.Enabled, ResultsOf, CanServe, Serve;
    CommandIsAsked(Running(READY, TASK), TASK.(status := IsRunning));
  }

  /** ... and ends. */
  lemma EndStep()
    ensures Step(Running(READY, TASK).(approvals := map[COMMAND := Approval(COMMAND, 0, false, false)],
                                       runs := map["t" := Run(TASK.(status := IsRunning), true)]), EndRun("t", Clean))
            == Stored(AwaitingApproval).(approvals := map[COMMAND := Approval(COMMAND, 0, false, false)])
  {
    hide Judgement, MayChange, L.Apply, L.Enabled, ResultsOf, CanServe, Serve, AllVerified;
    var w := Running(READY, TASK).(approvals := map[COMMAND := Approval(COMMAND, 0, false, false)],
                                   runs := map["t" := Run(TASK.(status := IsRunning), true)]);
    assert !Busy(w, "t");
    assert w.runs - {"t"} == map[];
  }

  lemma MayStart()
    ensures Enabled(READY, User(LoadStart("t"))) && Enabled(ACCEPTED, User(LoadStart("t")))
  {
  }

  lemma Asks()
    ensures After(PREPARED + ASKED) == Stored(AwaitingApproval).(approvals := map[COMMAND := Approval(COMMAND, 0, false, false)])
  {
    hide After, Step, Enabled;
    Prepares();
    MayStart();
    Starts(PREPARED, READY, "t");
    var started := PREPARED + [User(LoadStart("t")), User(StoreStart)];
    AskStep();
    EndStep();
    Goes(started, AskUser("t", COMMAND));
    Goes(started + [AskUser("t", COMMAND)], EndRun("t", Clean));
    assert started + [AskUser("t", COMMAND)] + [EndRun("t", Clean)] == PREPARED + ASKED;
  }

  /** The history in which the user accepts the command, and its world. */
  lemma Accepts()
    ensures After(PREPARED + ASKED + DECIDED) == ACCEPTED
    ensures Accepted(PREPARED + ASKED + DECIDED, 8, COMMAND, 0)
  {
    hide After, Step, Enabled;
    Asks();
    var before := PREPARED + ASKED;
    var w := After(before);
    WeighIs(w, 0, COMMAND, true);
    CompareIs(Step(w, User(Weigh(0, COMMAND, true))), 0, COMMAND, true, w.approvals[COMMAND]);
    var x := w.(errands := map[0 := Deciding(COMMAND, true, w.approvals[COMMAND])]);
    DecideIs(x, 0, COMMAND, true, w.approvals[COMMAND]);
    assert x.errands - {0} == map[];
    assert Step(Step(w, User(Weigh(0, COMMAND, true))), User(CheckDecision(0))) == x;
    Goes(before, User(Weigh(0, COMMAND, true)));
    var weighed := before + [User(Weigh(0, COMMAND, true))];
    Goes(weighed, User(CheckDecision(0)));
    Goes(weighed + [User(CheckDecision(0))], User(StoreDecision(0)));
    assert weighed + [User(CheckDecision(0))] + [User(StoreDecision(0))] == before + DECIDED;
    assert (before + DECIDED)[..8] == weighed && (before + DECIDED)[8] == User(CheckDecision(0));
  }

  /** A renewal from reading the task to storing it, when only a start is under way. */
  lemma ResumeSteps(w: World, e: nat, g: nat, id: string)
    requires w.ledger.up && w.ledger.rows == [] && e !in w.errands && g !in w.grants && id in w.tasks && w.tasks[id].id == id
    requires forall h | h in w.tasks[id].grant.hostIds :: h in w.hosts
    ensures var x := Step(Step(w, User(LoadResume(e, id))), User(CheckResume(e)));
            && x == w.(errands := w.errands[e := Resuming(w.tasks[id], true)])
            && Enabled(x, User(StoreResume(e, g)))
            && Step(x, User(StoreResume(e, g)))
               == w.(tasks := w.tasks[id := Renewed(w, w.tasks[id], g)], grants := w.grants + {g})
  {
    hide L.Apply, L.Enabled, Renewed, Remote;
    NoResults(id);
    var y := Step(w, User(LoadResume(e, id)));
    assert y == w.(errands := w.errands[e := Resuming(w.tasks[id], false)]);
    var x := Step(y, User(CheckResume(e)));
    assert x == w.(errands := w.errands[e := Resuming(w.tasks[id], true)]);
    RenewedElsewhere(x, w, w.tasks[id], g);
    assert x.errands - {e} == w.errands;
  }

  const RENEWED: seq<Action> := [User(LoadResume(1, "t")), User(CheckResume(1)), User(StoreResume(1, 1))]

  lemma Resumes(actions: seq<Action>, w: World)
    requires After(actions) == w && w.ledger.up && w.ledger.rows == [] && 1 !in w.errands && 1 !in w.grants
    requires "t" in w.tasks && w.tasks["t"].id == "t" && w.tasks["t"].grant.hostIds == ["h"] && "h" in w.hosts
    ensures After(actions + RENEWED)
            == w.(tasks := w.tasks["t" := Renewed(w, w.tasks["t"], 1)], grants := w.grants + {1})
    ensures Taken(actions + RENEWED, |actions| + 2, User(StoreResume(1, 1)))
    ensures After(actions + RENEWED[..2]) == w.(errands := w.errands[1 := Resuming(w.tasks["t"], true)])
  {
    hide After, Step, Enabled, Renewed;
    ResumeSteps(w, 1, 1, "t");
    Goes(actions, RENEWED[0]);
    Goes(actions + [RENEWED[0]], RENEWED[1]);
    Goes(actions + [RENEWED[0]] + [RENEWED[1]], RENEWED[2]);
    assert actions + [RENEWED[0]] + [RENEWED[1]] == actions + RENEWED[..2];
    assert actions + RENEWED[..2] + [RENEWED[2]] == actions + RENEWED;
    assert (actions + RENEWED)[..|actions| + 2] == actions + RENEWED[..2];
  }

  // ------------------------------------------------------------------ witnesses

  const DECIDING: seq<Action> := PREPARED + ASKED + DECIDED

  /** The start has read the task; the renewal is stored; then the start stores what it has read. */
  const STALE_START: seq<Action> :=
    DECIDING + [User(LoadStart("t"))] + RENEWED + [User(StoreStart), Tool(0, "t", COMMAND)]

  /** What an accepted command needs. */
  lemma CommandGoes(w: World)
    requires w.hosts == map["h" := HOST] && w.now == 0 && w.ledger == L.EMPTY.(up := true) && "t" in w.runs
    requires w.runs["t"].task.id == "t" && w.runs["t"].task.grant == GRANT
    requires w.approvals == map[COMMAND := Approval(COMMAND, 0, true, true)]
    ensures Enabled(w, Tool(0, "t", COMMAND))
  {
    hide Judgement, MayChange;
    CommandIsAsked(w, w.runs["t"].task);
  }

  /**
   No run is under way when the renewal is stored, and yet a decision made before it lets a
   call through after it.
   */
  lemma StaleStartRevives()
    ensures Taken(STALE_START, 13, User(StoreResume(1, 1))) && "t" !in After(STALE_START[..13]).runs
    ensures Taken(STALE_START, 15, Tool(0, "t", COMMAND)) && "t" in After(STALE_START[..15]).runs
    ensures Accepted(STALE_START, 8, COMMAND, After(STALE_START[..15]).runs["t"].task.grant.id)
  {
    hide After, Step, Enabled, Renewed, AcceptedIn;
    Accepts();
    MayStart();
    Starts(DECIDING, ACCEPTED, "t");
    var loading := DECIDING + [User(LoadStart("t"))];
    var w := ACCEPTED.(starter := Starting(ACCEPTED.tasks["t"]));
    Resumes(loading, w);
    var renewed := loading + RENEWED;
    Goes(renewed, User(StoreStart));
    var x := After(renewed);
    StarterGoesOn(x, ACCEPTED.tasks["t"]);
    CommandGoes(Step(x, User(StoreStart)));
    assert STALE_START[..15] == renewed + [User(StoreStart)];
    assert STALE_START[..13] == loading + RENEWED[..2];
    assert STALE_START[..14] == renewed;
    TakenPrefix(STALE_START, 14, 13, User(StoreResume(1, 1)));
    assert STALE_START[..8] == DECIDING[..8];
  }

  /** A run is under way when the renewal is stored; it ends, and the task has its older grant back. */
  const LONG_RUN: seq<Action> :=
    DECIDING + [User(LoadStart("t")), User(StoreStart)] + RENEWED + [EndRun("t", Exited)]

  lemma LongRunRevives()
    ensures Taken(LONG_RUN, 14, User(StoreResume(1, 1))) && "t" in After(LONG_RUN[..14]).runs
    ensures var w := After(LONG_RUN);
            && w.runs == map[] && "t" in w.tasks && w.tasks["t"].grant == GRANT && 1 in w.grants
            && IsAccepted(w, w.tasks["t"], COMMAND)
  {
    hide After, Step, Enabled, Renewed;
    Accepts();
    MayStart();
    Starts(DECIDING, ACCEPTED, "t");
    var running := DECIDING + [User(LoadStart("t")), User(StoreStart)];
    Resumes(running, Running(ACCEPTED, ACCEPTED.tasks["t"]));
    var renewed := running + RENEWED;
    Goes(renewed, EndRun("t", Exited));
    ExitStep(After(renewed));
    assert LONG_RUN == renewed + [EndRun("t", Exited)];
    assert LONG_RUN[..14] == running + RENEWED[..2];
    assert LONG_RUN[..15] == renewed;
    TakenPrefix(LONG_RUN, 15, 14, User(StoreResume(1, 1)));
  }

  lemma ExitStep(w: World)
    requires w.ledger.up && w.ledger.calls == map[] && w.starter.Free? && w.runs.Keys == {"t"}
    ensures var v := Step(w, EndRun("t", Exited));
            && v.runs == map[] && "t" in v.tasks && v.tasks["t"].grant == w.runs["t"].task.grant
            && v.tasks["t"].id == w.runs["t"].task.id && v.grants == w.grants && v.approvals == w.approvals
  {
    hide L.Apply, L.Enabled, CanServe, Serve, ResultsOf;
    assert w.runs - {"t"} == map[];
  }

  /** A submission has read the task; the renewal is stored; then the submission stores what it has read. */
  const STALE_SUBMISSION: seq<Action> :=
    DECIDING + [User(Look(2, "t")), User(LoadSubmit(2))] + RENEWED + [User(StoreSubmit(2))]

  lemma StaleSubmissionRevives()
    ensures Taken(STALE_SUBMISSION, 14, User(StoreResume(1, 1)))
    ensures "t" !in After(STALE_SUBMISSION[..14]).runs && After(STALE_SUBMISSION[..14]).starter.Free?
    ensures var w := After(STALE_SUBMISSION);
            && "t" in w.tasks && w.tasks["t"].grant == GRANT && 1 in w.grants && IsAccepted(w, w.tasks["t"], COMMAND)
  {
    hide After, Step, Enabled, Renewed;
    Accepts();
    Goes(DECIDING, User(Look(2, "t")));
    Goes(DECIDING + [User(Look(2, "t"))], User(LoadSubmit(2)));
    SubmitSteps(ACCEPTED);
    var reading := DECIDING + [User(Look(2, "t")), User(LoadSubmit(2))];
    assert DECIDING + [User(Look(2, "t"))] + [User(LoadSubmit(2))] == reading;
    Resumes(reading, After(reading));
    var renewed := reading + RENEWED;
    Goes(renewed, User(StoreSubmit(2)));
    SubmissionStep(After(renewed), ACCEPTED.tasks["t"]);
    assert STALE_SUBMISSION == renewed + [User(StoreSubmit(2))];
    assert STALE_SUBMISSION[..14] == reading + RENEWED[..2];
    assert STALE_SUBMISSION[..15] == renewed;
    TakenPrefix(STALE_SUBMISSION, 15, 14, User(StoreResume(1, 1)));
  }

  lemma SubmitSteps(w: World)
    requires w.ledger.up && w.errands == map[] && w.starter.Free? && "t" !in w.runs && "t" in w.tasks
    requires w.tasks["t"].status.AwaitingApproval?
    ensures Step(Step(w, User(Look(2, "t"))), User(LoadSubmit(2))) == w.(errands := map[2 := Submitting(w.tasks["t"])])
  {
    hide L.Apply, L.Enabled, Renewed;
    var x := Step(w, User(Look(2, "t")));
    assert x == w.(errands := map[2 := Looking("t")]);
  }

  lemma SubmissionStep(w: World, t: Task)
    requires w.ledger.up && 2 in w.errands && w.errands[2] == Submitting(t)
    ensures Step(w, User(StoreSubmit(2))) == w.(tasks := w.tasks[t.id := t], errands := w.errands - {2})
  {
    hide L.Apply, L.Enabled, Renewed;
  }
}
