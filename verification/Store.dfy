/** The store and the executor as objects, one caller at a time. */
module StoreObject {
  import opened Ledger
  import opened LedgerProofs
  import opened Policy

  /** The results of one task in row order. */
  function ResultsOf(rows: seq<Row>, task: string): seq<Result> {
    if rows == [] then [] else
    var rest := ResultsOf(rows[..|rows| - 1], task);
    var last := rows[|rows| - 1];
    if last.digest.taskId == task then rest + [last.payload] else rest
  }

  /** A row after recovery. */
  function Recovered(row: Row): Row {
    if row.payload.status.Running? then row.(payload := row.payload.(status := Unknown)) else row
  }

  function RecoveredTask(t: Task): Task {
    t.(status := if t.status.IsRunning? || t.status.AwaitingApproval? then Interrupted else t.status,
       grant := t.grant.(expiresAt := NEVER))
  }

  /** The zero time: every grant with it has expired. */
  const NEVER: int := 0

  datatype Claim = Fresh(result: Result) | Known(result: Result) | Reused

  class Store {
    var executions: seq<Row>
    var issued: set<nat>
    var tasks: map<string, Task>

    ghost predicate Valid()
      reads this
    {
      RowsOk(executions, issued)
    }

    constructor ()
      ensures Valid() && executions == [] && issued == {} && tasks == map[]
    {
      executions, issued, tasks := [], {}, map[];
    }

    /**
     Record the intention before the remote side is contacted, and read it back. The
     identifier is drawn at random by the original and has never been drawn before.
     */
    method Claim(r: Request, id: nat, now: int) returns (c: Claim)
      requires Valid() && id !in issued
      modifies this`executions, this`issued
      ensures Valid() && issued == old(issued) + {id}
      ensures var i := Find(old(executions), r);
              if i == |old(executions)| then
                c == Fresh(Intent(id, r, now)) && executions == old(executions) + [Row(r, Intent(id, r, now))]
              else
                && executions == old(executions)
                && c == if executions[i].digest == r then Known(executions[i].payload) else Reused
    {
      var mine := Intent(id, r, now);
      if Find(executions, r) == |executions| {
        FindInserted(executions, Row(r, mine));
      }
      executions := InsertRow(executions, mine);
      issued := issued + {id};
      var i := Find(executions, r);
      var row := executions[i];
      if row.digest != r {
        c := Reused;
      } else {
        c := if row.payload.id == id then Fresh(row.payload) else Known(row.payload);
      }
    }

    /** Replace the payload of one row. */
    method Finish(r: Result)
      modifies this`executions
      ensures executions == FinishRow(old(executions), r)
      ensures |executions| == |old(executions)|
      ensures forall i | 0 <= i < |executions| ::
                && executions[i].digest == old(executions)[i].digest
                && executions[i].payload ==
                   if old(executions)[i].payload.id == r.id then r else old(executions)[i].payload
    {
      executions := FinishRow(executions, r);
    }

    method Results(task: string) returns (out: seq<Result>)
      ensures out == ResultsOf(executions, task)
    {
      out := [];
      for i := 0 to |executions|
        invariant out == ResultsOf(executions[..i], task)
      {
        assert executions[..i + 1][..i] == executions[..i];
        if executions[i].digest.taskId == task {
          out := out + [executions[i].payload];
        }
      }
      assert executions[..|executions|] == executions;
    }

    /** What is still marked as running at start-up has an unknown outcome, and no grant survives. */
    method Recover()
      requires Valid()
      modifies this`executions, this`tasks
      ensures Valid()
      ensures |executions| == |old(executions)|
              && forall i | 0 <= i < |executions| :: executions[i] == Recovered(old(executions)[i])
      ensures tasks == map id | id in old(tasks) :: RecoveredTask(old(tasks)[id])
    {
      RecoverRows();
      RecoverTasks();
    }

    method RecoverRows()
      requires Valid()
      modifies this`executions
      ensures Valid()
      ensures |executions| == |old(executions)|
              && forall i | 0 <= i < |executions| :: executions[i] == Recovered(old(executions)[i])
    {
      hide RowsOk, FinishRow;
      var pending := Pending();
      ghost var before := executions;
      ghost var done: set<nat> := {};
      for k := 0 to |pending|
        invariant Marked(before, executions, done) && done == IdsOf(pending[..k])
      {
        MarkOne(before, executions, done, issued, pending[k]);
        Finish(pending[k].(status := Unknown));
        done := done + {pending[k].id};
        assert pending[..k + 1] == pending[..k] + [pending[k]];
      }
      assert pending[..|pending|] == pending;
      AllMarked(before, executions, pending, issued);
    }

    method RecoverTasks()
      modifies this`tasks
      ensures tasks == map id | id in old(tasks) :: RecoveredTask(old(tasks)[id])
    {
      var ids := tasks.Keys;
      while ids != {}
        invariant ids <= tasks.Keys && tasks.Keys == old(tasks).Keys
        invariant forall id | id in tasks ::
                    tasks[id] == if id in ids then old(tasks)[id] else RecoveredTask(old(tasks)[id])
      {
        var id :| id in ids;
        tasks := tasks[id := RecoveredTask(tasks[id])];
        ids := ids - {id};
      }
    }

    method Pending() returns (p: seq<Result>)
      ensures AreRunning(executions, p)
    {
      p := [];
      for j := 0 to |executions|
        invariant forall i | 0 <= i < |p| :: p[i].status.Running? && Carried(executions, p[i])
        invariant forall k | 0 <= k < j && executions[k].payload.status.Running? :: executions[k].payload in p
      {
        if executions[j].payload.status.Running? {
          p := p + [executions[j].payload];
        }
      }
    }
  }

  ghost predicate Carried(rows: seq<Row>, r: Result) {
    exists j :: 0 <= j < |rows| && rows[j].payload == r
  }

  /** `p` lists exactly the payloads still marked as running. */
  ghost predicate AreRunning(rows: seq<Row>, p: seq<Result>) {
    && (forall i | 0 <= i < |p| :: p[i].status.Running? && Carried(rows, p[i]))
    && (forall j | 0 <= j < |rows| && rows[j].payload.status.Running? :: rows[j].payload in p)
  }

  /** The rows named so far are recovered, and no others. */
  ghost predicate Marked(before: seq<Row>, rows: seq<Row>, done: set<nat>) {
    |rows| == |before| && forall i | 0 <= i < |before| ::
      rows[i] == if before[i].payload.id in done then Recovered(before[i]) else before[i]
  }

  lemma MarkOne(before: seq<Row>, rows: seq<Row>, done: set<nat>, issued: set<nat>, r: Result)
    requires RowsOk(before, issued) && Marked(before, rows, done) && r.status.Running?
    requires Carried(before, r)
    ensures Marked(before, FinishRow(rows, r.(status := Unknown)), done + {r.id})
  {
    var j :| 0 <= j < |before| && before[j].payload == r;
    assert forall i | 0 <= i < |before| && i != j :: before[i].payload.id != r.id;
  }

  lemma AllMarked(before: seq<Row>, rows: seq<Row>, pending: seq<Result>, issued: set<nat>)
    requires RowsOk(before, issued) && Marked(before, rows, IdsOf(pending))
    requires AreRunning(before, pending)
    ensures forall i | 0 <= i < |rows| :: rows[i] == Recovered(before[i])
    ensures RowsOk(rows, issued)
  {
  }

  ghost function IdsOf(p: seq<Result>): set<nat> { set r | r in p :: r.id }

  lemma {:induction false} FindInserted(rows: seq<Row>, row: Row)
    requires Find(rows, row.digest) == |rows|
    ensures Find(rows + [row], row.digest) == |rows|
  {
    if rows != [] {
      assert (rows + [row])[1..] == rows[1..] + [row];
      FindInserted(rows[1..], row);
    }
  }
}
