/** One execution from beginning to end, and the machine of the ledger it is a schedule of. */
module ExecutorObject {
  import opened Ledger
  import opened StoreObject

  /** What the remote side, or the local disk, made of a request. */
  datatype Answer = Answer(failed: bool, exitCode: int, output: string)

  datatype Outcome =
    | Refused                 // no identity, or no authority
    | Earlier(claim: Claim)   // the call has a row already
    | Done(result: Result)

  /** The row of a call that was carried out. */
  function CarriedOut(intent: Result, a: Answer): Result {
    intent.(artifact := true, status := FinalStatus(intent.request.operation, a.failed, a.exitCode),
            exitCode := a.exitCode, output := a.output)
  }

  class Executor {
    const store: Store
    var dispatched: seq<nat>

    constructor (store: Store)
      ensures this.store == store && dispatched == []
    {
      this.store := store;
      dispatched := [];
    }

    /** Everything the ledger knows while no call is under way. */
    ghost function Idle(): Ledger
      reads this, store
    {
      Alone(store.executions, store.issued, dispatched)
    }

    /**
     `authority` is the answer of the check made once the lock is held, `artifact` says
     whether the file for the output could be made, `a` is what the request led to.
     */
    method Execute(r: Request, authority: bool, id: nat, now: int, artifact: bool, a: Answer) returns (o: Outcome)
      requires store.Valid() && id !in store.issued
      modifies this`dispatched, store`executions, store`issued
      ensures Idle() == Scheduled(old(Idle()), r, authority, id, now, artifact, a)
      ensures !Identified(r) || !authority ==> o == Refused && Idle() == old(Idle())
      ensures Identified(r) && authority ==>
                var rows := old(store.executions);
                store.issued == old(store.issued) + {id}
                && if Find(rows, r) < |rows| then
                     o.Earlier? && store.executions == rows && dispatched == old(dispatched)
                   else
                     && o.Done? && o.result.id == id && store.executions == rows + [Row(r, o.result)]
                     && dispatched == old(dispatched) + (if artifact then [id] else [])
                     && (o.result.status.Succeeded? <==> artifact && !a.failed)
                     && (o.result.status.Unknown? <==>
                           artifact && a.failed && a.exitCode < 0 && !Harmless(r.operation))
    {
      hide RowsOk, Find, FinishRow, InsertRow, Scheduled, Mutates, Harmless, FinalStatus, CarriedOut, Identified;
      ghost var rows, issued, log := store.executions, store.issued, dispatched;
      IdentifiedMeans(r);
      if r.taskId == "" || r.callId == "" || (r.hostId == "" && !IsLocal(r.operation)) || !authority {
        NotScheduled(rows, issued, log, r, authority, id, now, artifact, a);
        return Refused;
      }
      ScheduleOf(rows, issued, log, r, id, now, artifact, a);
      var c := store.Claim(r, id, now);
      if !c.Fresh? {
        return Earlier(c);
      }
      var result := c.result;
      if !artifact {
        result := result.(status := Failed);
        FinishLast(rows, issued, Row(r, c.result), result);
        store.Finish(result);
        return Done(result);
      }
      result := result.(artifact := true);
      FinishLast(rows, issued, Row(r, c.result), result);
      store.Finish(result);
      dispatched := dispatched + [id];
      ghost var saved := result;
      result := result.(exitCode := a.exitCode, output := a.output, status := Succeeded);
      if a.failed {
        result := result.(status := Failed);
        if a.exitCode < 0 && !Harmless(r.operation) {
          result := result.(status := Unknown);
        }
      }
      CarriedOutMeans(c.result, a);
      FinishLast(rows, issued, Row(r, saved), result);
      store.Finish(result);
      return Done(result);
    }
  }

  // ------------------------------------------------------- one call by itself

  function Alone(rows: seq<Row>, issued: set<nat>, log: seq<nat>): Ledger {
    Ledger(true, rows, map[], map[], issued, log)
  }

  /** An action that is not enabled does nothing. */
  function Step(s: Ledger, a: Action): Ledger { if Enabled(s, a) then Apply(s, a) else s }

  /** The steps of one call when nothing comes between. */
  function Scheduled(s: Ledger, r: Request, authority: bool, id: nat, now: int, artifact: bool, a: Answer): Ledger {
    var begun := Step(Step(s, Begin(0, r)), Acquire(0));
    if !authority then Step(Step(begun, Abandon(0)), Release(0)) else
    var selected := Step(Step(Step(begun, Authorise(0)), Insert(0, id, now)), Select(0));
    if !artifact then Step(Step(selected, NoArtifact(0)), Release(0)) else
    Step(Step(Step(Step(selected, Save(0)), Dispatch(0)), Settle(0, a.failed, a.exitCode, a.output)), Release(0))
  }

  /** The only call under way is this one. */
  function During(rows: seq<Row>, issued: set<nat>, log: seq<nat>, r: Request, p: Phase, result: Result): Ledger {
    Ledger(true, rows, map[0 := Call(r, p, result)],
           if Mutates(r.operation) && !p.Waiting? then map[r.hostId := 0] else map[], issued, log)
  }

  lemma Begins(rows: seq<Row>, issued: set<nat>, log: seq<nat>, r: Request)
    ensures Step(Step(Alone(rows, issued, log), Begin(0, r)), Acquire(0)) ==
              if Identified(r) then During(rows, issued, log, r, Entered, Intent(0, r, 0)) else Alone(rows, issued, log)
  {
    var s := Step(Alone(rows, issued, log), Begin(0, r));
    if Identified(r) {
      var p := if Mutates(r.operation) then Waiting else Entered;
      assert s == During(rows, issued, log, r, p, Intent(0, r, 0));
      assert Step(s, Acquire(0)).calls == map[0 := Call(r, Entered, Intent(0, r, 0))];
    }
  }

  /** The last row is the one this call finishes. */
  lemma FinishLast(rows: seq<Row>, issued: set<nat>, row: Row, r: Result)
    requires RowsOk(rows, issued) && r.id == row.payload.id && r.id !in issued
    ensures FinishRow(rows + [row], r) == rows + [Row(row.digest, r)]
  {
  }

  lemma Enters(rows: seq<Row>, issued: set<nat>, log: seq<nat>, r: Request, id: nat, now: int)
    requires id !in issued
    ensures var s := During(rows, issued, log, r, Entered, Intent(0, r, 0));
            Step(Step(s, Authorise(0)), Insert(0, id, now))
            == During(InsertRow(rows, Intent(id, r, now)), issued + {id}, log, r, Inserted, Intent(id, r, now))
  {
    hide InsertRow;
    var s := During(rows, issued, log, r, Entered, Intent(0, r, 0));
    assert Step(s, Authorise(0)) == During(rows, issued, log, r, Authorised, Intent(0, r, 0));
  }

  lemma SelectRow(rows: seq<Row>, issued: set<nat>, result: Result)
    requires RowsOk(rows, issued) && result.id !in issued
    ensures var r := result.request;
            var inserted := InsertRow(rows, result);
            && inserted == (if Find(rows, r) == |rows| then rows + [Row(r, result)] else rows)
            && Find(inserted, r) == Find(rows, r) < |inserted|
            && (Find(rows, r) < |rows| ==> rows[Find(rows, r)].payload.id != result.id)
  {
    if Find(rows, result.request) == |rows| {
      FindInserted(rows, Row(result.request, result));
    }
  }

  lemma Selects(rows: seq<Row>, issued: set<nat>, log: seq<nat>, r: Request, id: nat, now: int)
    requires RowsOk(rows, issued) && id !in issued
    ensures var isNew := Find(rows, r) == |rows|;
            Step(During(InsertRow(rows, Intent(id, r, now)), issued + {id}, log, r, Inserted, Intent(id, r, now)), Select(0))
            == During(if isNew then rows + [Row(r, Intent(id, r, now))] else rows, issued + {id}, log, r,
                      if isNew then Claimed else Leaving, Intent(id, r, now))
  {
    hide Identified, Mutates, RowsOk, Find, InsertRow;
    SelectRow(rows, issued, Intent(id, r, now));
  }

  lemma Stores(rows: seq<Row>, issued: set<nat>, log: seq<nat>, was: Result, r: Result, p: Phase, q: Phase)
    requires !p.Waiting? && !q.Waiting? && RowsOk(rows, issued) && r.id !in issued && was.id == r.id
    ensures Record(During(rows + [Row(was.request, was)], issued + {r.id}, log, was.request, p, was), 0, r, q)
            == During(rows + [Row(was.request, r)], issued + {r.id}, log, was.request, q, r)
  {
    hide FinishRow, RowsOk, Mutates;
    FinishLast(rows, issued, Row(was.request, was), r);
  }

  lemma Releases(rows: seq<Row>, issued: set<nat>, log: seq<nat>, r: Request, result: Result)
    ensures Step(During(rows, issued, log, r, Leaving, result), Release(0)) == Alone(rows, issued, log)
  {
    hide Mutates;
    var s := During(rows, issued, log, r, Leaving, result);
    assert (map h | h in s.locks && s.locks[h] != 0 :: s.locks[h]) == map[];
  }

  lemma Ignores(rows: seq<Row>, issued: set<nat>, log: seq<nat>, r: Request, result: Result, a: Action)
    requires a == Save(0) || a == NoArtifact(0) || a == Dispatch(0) || (a.Settle? && a.c == 0)
    ensures Step(During(rows, issued, log, r, Leaving, result), a) == During(rows, issued, log, r, Leaving, result)
  {
  }

  lemma Saves(rows: seq<Row>, issued: set<nat>, log: seq<nat>, was: Result)
    requires RowsOk(rows, issued) && was.id !in issued
    ensures var saved := was.(artifact := true);
            var r := was.request;
            Step(During(rows + [Row(r, was)], issued + {was.id}, log, r, Claimed, was), Save(0))
            == During(rows + [Row(r, saved)], issued + {was.id}, log, r, Saved, saved)
  {
    hide RowsOk, FinishRow, Mutates, Record;
    Stores(rows, issued, log, was, was.(artifact := true), Claimed, Saved);
  }

  lemma Dispatches(rows: seq<Row>, issued: set<nat>, log: seq<nat>, was: Result)
    ensures Step(During(rows, issued, log, was.request, Saved, was), Dispatch(0))
            == During(rows, issued, log + [was.id], was.request, Dispatched, was)
  {
    hide Mutates;
  }

  lemma Settles(rows: seq<Row>, issued: set<nat>, log: seq<nat>, was: Result, a: Answer)
    requires RowsOk(rows, issued) && was.id !in issued && was.artifact
    ensures var r := was.request;
            Step(During(rows + [Row(r, was)], issued + {was.id}, log, r, Dispatched, was),
                 Settle(0, a.failed, a.exitCode, a.output))
            == During(rows + [Row(r, CarriedOut(was, a))], issued + {was.id}, log, r, Leaving, CarriedOut(was, a))
  {
    hide RowsOk, FinishRow, Mutates, FinalStatus, Record;
    Stores(rows, issued, log, was, CarriedOut(was, a), Dispatched, Leaving);
  }

  lemma Carries(rows: seq<Row>, issued: set<nat>, log: seq<nat>, r: Request, id: nat, now: int, a: Answer)
    requires RowsOk(rows, issued) && id !in issued
    ensures var intent := Intent(id, r, now);
            Step(Step(Step(During(rows + [Row(r, intent)], issued + {id}, log, r, Claimed, intent), Save(0)), Dispatch(0)),
                 Settle(0, a.failed, a.exitCode, a.output))
            == During(rows + [Row(r, CarriedOut(intent, a))], issued + {id}, log + [id], r, Leaving, CarriedOut(intent, a))
  {
    hide RowsOk, Step, During;
    var intent := Intent(id, r, now);
    var saved := intent.(artifact := true);
    Saves(rows, issued, log, intent);
    Dispatches(rows + [Row(r, saved)], issued + {id}, log, saved);
    Settles(rows, issued, log + [id], saved, a);
    assert CarriedOut(saved, a) == CarriedOut(intent, a);
  }

  lemma Fails(rows: seq<Row>, issued: set<nat>, log: seq<nat>, r: Request, id: nat, now: int)
    requires RowsOk(rows, issued) && id !in issued
    ensures var intent := Intent(id, r, now);
            var failed := intent.(status := Failed);
            Step(During(rows + [Row(r, intent)], issued + {id}, log, r, Claimed, intent), NoArtifact(0))
            == During(rows + [Row(r, failed)], issued + {id}, log, r, Leaving, failed)
  {
    hide RowsOk, FinishRow, Mutates;
    var intent := Intent(id, r, now);
    Stores(rows, issued, log, intent, intent.(status := Failed), Claimed, Leaving);
  }

  lemma Abandons(rows: seq<Row>, issued: set<nat>, log: seq<nat>, r: Request)
    ensures Step(During(rows, issued, log, r, Entered, Intent(0, r, 0)), Abandon(0))
            == During(rows, issued, log, r, Leaving, Intent(0, r, 0))
  {
    hide Mutates;
  }

  /** Without a call none of its steps can be made. */
  lemma Nothing(rows: seq<Row>, issued: set<nat>, log: seq<nat>)
    ensures forall a: Action | !a.Begin? && !a.Crash? && !a.RecoverRow? && !a.Restart? ::
              Step(Alone(rows, issued, log), a) == Alone(rows, issued, log)
  {
  }

  lemma NotScheduled(rows: seq<Row>, issued: set<nat>, log: seq<nat>,
                     r: Request, authority: bool, id: nat, now: int, artifact: bool, a: Answer)
    requires !Identified(r) || !authority
    ensures Scheduled(Alone(rows, issued, log), r, authority, id, now, artifact, a) == Alone(rows, issued, log)
  {
    hide Identified, During, Alone, Step, Intent;
    Begins(rows, issued, log, r);
    if Identified(r) {
      Abandons(rows, issued, log, r);
      Releases(rows, issued, log, r, Intent(0, r, 0));
    } else {
      Nothing(rows, issued, log);
    }
  }

  lemma ScheduleOf(rows: seq<Row>, issued: set<nat>, log: seq<nat>, r: Request, id: nat, now: int, artifact: bool, a: Answer)
    requires Identified(r) && RowsOk(rows, issued) && id !in issued
    ensures var intent := Intent(id, r, now);
            Scheduled(Alone(rows, issued, log), r, true, id, now, artifact, a)
            == if Find(rows, r) < |rows| then Alone(rows, issued + {id}, log)
               else if !artifact then Alone(rows + [Row(r, intent.(status := Failed))], issued + {id}, log)
               else Alone(rows + [Row(r, CarriedOut(intent, a))], issued + {id}, log + [id])
  {
    hide Step, During, Alone, CarriedOut, RowsOk, Find, Intent;
    Begins(rows, issued, log, r);
    Enters(rows, issued, log, r, id, now);
    Selects(rows, issued, log, r, id, now);
    var intent := Intent(id, r, now);
    if Find(rows, r) < |rows| {
      Ignores(rows, issued + {id}, log, r, intent, NoArtifact(0));
      Ignores(rows, issued + {id}, log, r, intent, Save(0));
      Ignores(rows, issued + {id}, log, r, intent, Dispatch(0));
      Ignores(rows, issued + {id}, log, r, intent, Settle(0, a.failed, a.exitCode, a.output));
      Releases(rows, issued + {id}, log, r, intent);
    } else if !artifact {
      Fails(rows, issued, log, r, id, now);
      Releases(rows + [Row(r, intent.(status := Failed))], issued + {id}, log, r, intent.(status := Failed));
    } else {
      Carries(rows, issued, log, r, id, now, a);
      Releases(rows + [Row(r, CarriedOut(intent, a))], issued + {id}, log + [id], r, CarriedOut(intent, a));
    }
  }

  lemma IdentifiedMeans(r: Request)
    ensures Identified(r) <==> r.taskId != "" && r.callId != "" && (r.hostId != "" || IsLocal(r.operation))
  {
  }

  lemma CarriedOutMeans(intent: Result, a: Answer)
    ensures var r := CarriedOut(intent, a);
            && r == intent.(artifact := true, exitCode := a.exitCode, output := a.output, status := r.status)
            && r.status == if !a.failed then Succeeded
                           else if a.exitCode < 0 && !Harmless(intent.request.operation) then Unknown else Failed
  {
  }
}
