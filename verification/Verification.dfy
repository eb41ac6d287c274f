/** Evidence that a task is finished: which records count, and when they all agree. */
module Verification {
  import opened Ledger
  import opened Policy
  import opened StoreObject

  /** One accepted check: the execution that showed the expected text. */
  datatype Evidence = Evidence(execution: nat, expected: string)

  predicate Open(r: Result) { r.status.Unknown? || r.status.Running? }

  predicate OnTerminal(op: string) { "terminal_" <= op }

  predicate Contains(s: string, part: string) {
    exists i :: 0 <= i <= |s| - |part| && part <= s[i..]
  }

  /** The results that concern a host, in row order. */
  function Remote(results: seq<Result>): (out: seq<Result>)
    ensures forall r | r in out :: r in results && !IsLocal(r.request.operation)
    ensures forall r | r in results && !IsLocal(r.request.operation) :: r in out
  {
    if results == [] then [] else
    var last := results[|results| - 1];
    var rest := Remote(results[..|results| - 1]);
    if IsLocal(last.request.operation) then rest else rest + [last]
  }

  /** No outcome on any host is in doubt. */
  predicate NoneOpen(results: seq<Result>) { forall r | r in Remote(results) :: !Open(r) }

  /** A successful read-only look at a host that shows the expected text. */
  predicate Shows(r: Result, expected: string) {
    && !OnTerminal(r.request.operation) && !Mutates(r.request.operation)
    && r.status.Succeeded? && Contains(r.output, expected)
  }

  /** The conditions under which a check is recorded. */
  predicate Acceptable(hosts: seq<string>, results: seq<Result>, r: Result, expected: string) {
    && (forall q | q in results :: !Open(q))
    && r in results && r.request.hostId in hosts && Shows(r, expected)
    && (forall q | q in results && q.request.hostId == r.request.hostId :: q.startedAt <= r.startedAt)
  }

  /** The latest record of every host, one entry a host. */
  function Latest(remote: seq<Result>): (m: map<string, Result>)
    ensures forall r | r in remote :: r.request.hostId in m
    ensures forall h | h in m :: m[h] in remote && m[h].request.hostId == h
  {
    if remote == [] then map[] else
    var last := remote[|remote| - 1];
    Latest(remote[..|remote| - 1])[last.request.hostId := last]
  }

  predicate AllVerified(task: string, results: seq<Result>, verified: map<(string, string), Evidence>) {
    var remote := Remote(results);
    && remote != [] && NoneOpen(results)
    && forall h | h in Latest(remote) :: (task, h) in verified && verified[(task, h)].execution == Latest(remote)[h].id
  }

  /** The entry of a host is the record after which nothing happened there. */
  lemma {:induction false} LatestIsLast(remote: seq<Result>, i: nat)
    requires i < |remote| && forall j | i < j < |remote| :: remote[j].request.hostId != remote[i].request.hostId
    ensures Latest(remote)[remote[i].request.hostId] == remote[i]
  {
    if i < |remote| - 1 {
      LatestIsLast(remote[..|remote| - 1], i);
    }
  }

  class Verifier {
    const store: Store
    var verified: map<(string, string), Evidence>

    constructor (store: Store)
      ensures this.store == store && verified == map[]
    {
      this.store := store;
      verified := map[];
    }

    method CheckKnownResults(task: string) returns (ok: bool)
      ensures ok <==> NoneOpen(ResultsOf(store.executions, task))
    {
      var results := store.Results(task);
      for i := 0 to |results|
        invariant NoneOpen(results[..i])
      {
        Prefix(results, i);
        if !IsLocal(results[i].request.operation) && Open(results[i]) {
          assert results[i] in Remote(results);
          return false;
        }
      }
      assert results[..|results|] == results;
      return true;
    }

    /** `operator` says that the main agent is asking, `id` is the execution it points to. */
    method VerifyResult(task: Task, operator: bool, id: nat, expected: string) returns (ok: bool)
      requires store.Valid()
      modifies this`verified
      ensures var results := ResultsOf(store.executions, task.id);
              && (ok <==> operator && exists r: Result :: r.id == id && Acceptable(task.grant.hostIds, results, r, expected))
              && (!ok ==> verified == old(verified))
              && (ok ==> exists r: Result :: r.id == id && r in results
                             && verified == old(verified)[(task.id, r.request.hostId) := Evidence(id, expected)])
    {
      hide Remote, Contains, ResultsOf, Mutates, OnTerminal, RowsOk;
      if !operator {
        return false;
      }
      var results := store.Results(task.id);
      UniqueResults(store.executions, store.issued, task.id);
      var found: nat := |results|;
      for i := 0 to |results|
        invariant forall j | 0 <= j < i :: !Open(results[j])
        invariant found == |results| || (found < i && results[found].id == id)
        invariant forall j | 0 <= j < i && results[j].id == id :: j == found
      {
        if Open(results[i]) {
          return false;
        }
        if results[i].id == id {
          found := i;
        }
      }
      if found == |results| || results[found].request.hostId !in task.grant.hostIds {
        return false;
      }
      var r := results[found];
      if OnTerminal(r.request.operation) || Mutates(r.request.operation) || !r.status.Succeeded?
         || !Contains(r.output, expected) {
        return false;
      }
      for i := 0 to |results|
        invariant forall j | 0 <= j < i && results[j].request.hostId == r.request.hostId ::
                    results[j].startedAt <= r.startedAt
      {
        if results[i].request.hostId == r.request.hostId && results[i].startedAt > r.startedAt {
          return false;
        }
      }
      verified := verified[(task.id, r.request.hostId) := Evidence(id, expected)];
      assert Acceptable(task.grant.hostIds, results, r, expected);
      return true;
    }

    /** The tool: what is to be shown must be named. */
    method VerifyExecution(task: Task, operator: bool, id: nat, expected: string) returns (ok: bool)
      requires store.Valid()
      modifies this`verified
      ensures var results := ResultsOf(store.executions, task.id);
              && (ok <==> expected != "" && operator
                          && exists r: Result :: r.id == id && Acceptable(task.grant.hostIds, results, r, expected))
              && (!ok ==> verified == old(verified))
              && (ok ==> exists r: Result :: r.id == id && r in results
                             && verified == old(verified)[(task.id, r.request.hostId) := Evidence(id, expected)])
    {
      hide ResultsOf, Acceptable;
      if expected == "" {
        return false;
      }
      ok := VerifyResult(task, operator, id, expected);
    }

    method AllChecked(task: string) returns (ok: bool)
      ensures ok <==> AllVerified(task, ResultsOf(store.executions, task), verified)
    {
      hide Remote, Latest, ResultsOf;
      var results := store.Results(task);
      var last: map<string, Result> := map[];
      NothingYet(results);
      for i := 0 to |results|
        invariant last == Latest(Remote(results[..i])) && NoneOpen(results[..i])
      {
        Prefix(results, i);
        if IsLocal(results[i].request.operation) {
          continue;
        }
        if Open(results[i]) {
          assert results[i] in Remote(results);
          return false;
        }
        last := last[results[i].request.hostId := results[i]];
      }
      assert results[..|results|] == results;
      Nonempty(Remote(results));
      if last == map[] {
        return false;
      }
      ok := Covers(task, last);
    }

    method Covers(task: string, last: map<string, Result>) returns (ok: bool)
      ensures ok <==> forall h | h in last :: (task, h) in verified && verified[(task, h)].execution == last[h].id
    {
      var hosts := last.Keys;
      while hosts != {}
        invariant hosts <= last.Keys
        invariant forall h | h in last && h !in hosts ::
                    (task, h) in verified && verified[(task, h)].execution == last[h].id
      {
        var h :| h in hosts;
        if (task, h) !in verified || verified[(task, h)].execution != last[h].id {
          return false;
        }
        hosts := hosts - {h};
      }
      return true;
    }
  }

  lemma NothingYet(results: seq<Result>)
    ensures Remote(results[..0]) == [] && Latest([]) == map[]
  {
  }

  lemma Nonempty(remote: seq<Result>)
    ensures Latest(remote) == map[] <==> remote == []
  {
  }

  lemma Prefix(results: seq<Result>, i: nat)
    requires i < |results|
    ensures Remote(results[..i + 1])
            == if IsLocal(results[i].request.operation) then Remote(results[..i]) else Remote(results[..i]) + [results[i]]
    ensures !IsLocal(results[i].request.operation) ==>
              Latest(Remote(results[..i + 1])) == Latest(Remote(results[..i]))[results[i].request.hostId := results[i]]
  {
    assert results[..i + 1][..i] == results[..i];
    var before := Remote(results[..i]);
    assert (before + [results[i]])[..|before|] == before;
  }

  /** Every result of a task comes from a row of that task. */
  lemma {:induction false} ResultIsRow(rows: seq<Row>, task: string, i: nat) returns (k: nat)
    requires i < |ResultsOf(rows, task)|
    ensures k < |rows| && rows[k].payload == ResultsOf(rows, task)[i] && rows[k].digest.taskId == task
    ensures i == |ResultsOf(rows[..k], task)|
  {
    var n := |rows| - 1;
    if i < |ResultsOf(rows[..n], task)| {
      k := ResultIsRow(rows[..n], task, i);
      assert rows[..n][..k] == rows[..k];
    } else {
      k := n;
    }
  }

  lemma {:induction false} UniqueResults(rows: seq<Row>, issued: set<nat>, task: string)
    requires RowsOk(rows, issued)
    ensures var results := ResultsOf(rows, task);
            forall i, j | 0 <= i < j < |results| :: results[i].id != results[j].id
  {
    var results := ResultsOf(rows, task);
    forall i, j | 0 <= i < j < |results|
      ensures results[i].id != results[j].id
    {
      var k := ResultIsRow(rows, task, i);
      var l := ResultIsRow(rows, task, j);
      assert k != l;
    }
  }
}
