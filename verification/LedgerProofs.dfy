/** What every interleaving of calls, crashes and recoveries keeps. */
module LedgerProofs {
  import opened Ledger

  // ------------------------------------------------------------ locks per host

  /** One call moves on without giving up or taking a lock. */
  lemma OneCallLocks(s: Ledger, t: Ledger, c: nat, k: Call)
    requires LocksOk(s) && t.locks == s.locks && t.calls == s.calls[c := k]
    requires c in s.calls ==> (s.calls[c].phase.Waiting? || !k.phase.Waiting?)
    requires Holds(s.locks, c, k)
    ensures LocksOk(t)
  {
  }

  lemma AcquireLocks(s: Ledger, c: nat)
    requires LocksOk(s) && Enabled(s, Acquire(c))
    ensures LocksOk(Apply(s, Acquire(c)))
  {
    var t := Apply(s, Acquire(c));
    forall d | d in t.calls
      ensures Holds(t.locks, d, t.calls[d])
    {
      assert Holds(s.locks, d, s.calls[d]);
    }
  }

  lemma ReleaseLocks(s: Ledger, c: nat)
    requires LocksOk(s) && Enabled(s, Release(c))
    ensures LocksOk(Apply(s, Release(c)))
  {
    var t := Apply(s, Release(c));
    forall d | d in t.calls
      ensures Holds(t.locks, d, t.calls[d])
    {
      assert Holds(s.locks, d, s.calls[d]);
    }
  }

  lemma AbandonLocks(s: Ledger, c: nat)
    requires LocksOk(s) && Enabled(s, Abandon(c))
    ensures LocksOk(Apply(s, Abandon(c)))
  {
    var t := Apply(s, Abandon(c));
    if s.calls[c].phase.Waiting? {
      forall d | d in t.calls
        ensures Holds(t.locks, d, t.calls[d])
      {
        assert Holds(s.locks, d, s.calls[d]);
      }
    } else {
      assert Holds(s.locks, c, s.calls[c]);
      OneCallLocks(s, t, c, t.calls[c]);
    }
  }

  lemma LocksKept(s: Ledger, a: Action)
    requires LocksOk(s) && (!s.up ==> s.calls == map[]) && Enabled(s, a)
    ensures LocksOk(Apply(s, a))
  {
    hide LocksOk, InsertRow, FinishRow, Find, FinalStatus, Identified;
    var t := Apply(s, a);
    match a
    case Acquire(c) => AcquireLocks(s, c);
    case Release(c) => ReleaseLocks(s, c);
    case Abandon(c) => AbandonLocks(s, c);
    case Crash => NoCalls(t);
    case RecoverRow(_) => SameLocks(s, t);
    case Restart => SameLocks(s, t);
    case Begin(c, _) => OneCallLocks(s, t, c, t.calls[c]);
    case Authorise(c) => HeldBy(s, c); OneCallLocks(s, t, c, t.calls[c]);
    case Insert(c, _, _) => HeldBy(s, c); OneCallLocks(s, t, c, t.calls[c]);
    case Select(c) => HeldBy(s, c); OneCallLocks(s, t, c, t.calls[c]);
    case Save(c) => HeldBy(s, c); OneCallLocks(s, t, c, t.calls[c]);
    case NoArtifact(c) => HeldBy(s, c); OneCallLocks(s, t, c, t.calls[c]);
    case Dispatch(c) => HeldBy(s, c); OneCallLocks(s, t, c, t.calls[c]);
    case Settle(c, _, _, _) => HeldBy(s, c); OneCallLocks(s, t, c, t.calls[c]);
  }

  /** A mutating call has the lock of its host. */
  predicate HoldsLock(s: Ledger, c: nat) {
    c in s.calls
    && (Mutates(s.calls[c].request.operation) ==>
          s.calls[c].request.hostId in s.locks && s.locks[s.calls[c].request.hostId] == c)
  }

  lemma HeldBy(s: Ledger, c: nat)
    requires LocksOk(s) && c in s.calls
    ensures Holds(s.locks, c, s.calls[c])
  {
  }

  lemma NoCalls(t: Ledger)
    requires t.calls == map[] && t.locks == map[]
    ensures LocksOk(t)
  {
  }

  lemma SameLocks(s: Ledger, t: Ledger)
    requires LocksOk(s) && t.calls == s.calls && t.locks == s.locks
    ensures LocksOk(t)
  {
  }

  // -------------------------------------------------------------------- rows

  /** Rows are only added, and a row that is no longer running never changes again. */
  ghost predicate Settled(a: seq<Row>, b: seq<Row>) {
    |a| <= |b| && forall i | 0 <= i < |a| ::
      a[i].digest == b[i].digest && a[i].payload.id == b[i].payload.id
      && (!a[i].payload.status.Running? ==> b[i] == a[i])
  }

  lemma FinishRows(rows: seq<Row>, issued: set<nat>, log: seq<nat>, was: Result, r: Result)
    requires RowsOk(rows, issued) && LogOk(rows, issued, log)
    requires Intact(rows, was) && was.status.Running? && was.id == r.id && was.request == r.request
    ensures RowsOk(FinishRow(rows, r), issued) && LogOk(FinishRow(rows, r), issued, log)
    ensures Settled(rows, FinishRow(rows, r)) && Intact(FinishRow(rows, r), r)
  {
    forall id | HasRow(rows, id)
      ensures HasRow(FinishRow(rows, r), id)
    {
      FinishHas(rows, r, id);
    }
  }

  lemma FinishHas(rows: seq<Row>, r: Result, id: nat)
    requires HasRow(rows, id)
    ensures HasRow(FinishRow(rows, r), id)
  {
    var i :| 0 <= i < |rows| && rows[i].payload.id == id;
    assert FinishRow(rows, r)[i].payload.id == id;
  }

  /** Another call's row is not touched. */
  lemma FinishOthers(rows: seq<Row>, issued: set<nat>, log: seq<nat>, r: Result, c: Call)
    requires CallOk(rows, issued, log, c) && (Drew(c.phase) ==> c.result.id != r.id)
    ensures CallOk(FinishRow(rows, r), issued, log, c)
  {
    if Owns(c.phase) {
      FinishHas(rows, r, c.result.id);
    }
  }

  lemma InsertHas(rows: seq<Row>, r: Result, id: nat)
    requires HasRow(rows, id)
    ensures HasRow(InsertRow(rows, r), id)
  {
    var i :| 0 <= i < |rows| && rows[i].payload.id == id;
    assert InsertRow(rows, r)[i].payload.id == id;
  }

  lemma InsertRows(rows: seq<Row>, issued: set<nat>, log: seq<nat>, r: Result)
    requires RowsOk(rows, issued) && LogOk(rows, issued, log) && r.id !in issued
    ensures RowsOk(InsertRow(rows, r), issued + {r.id}) && LogOk(InsertRow(rows, r), issued + {r.id}, log)
    ensures Settled(rows, InsertRow(rows, r)) && Intact(InsertRow(rows, r), r) && r.id !in log
  {
    forall id | HasRow(rows, id)
      ensures HasRow(InsertRow(rows, r), id)
    {
      InsertHas(rows, r, id);
    }
  }

  lemma InsertOthers(rows: seq<Row>, issued: set<nat>, log: seq<nat>, r: Result, c: Call)
    requires CallOk(rows, issued, log, c) && r.id !in issued
    ensures CallOk(InsertRow(rows, r), issued + {r.id}, log, c)
  {
    if Owns(c.phase) {
      InsertHas(rows, r, c.result.id);
    }
  }

  // ------------------------------------------------------------- calls and rows

  ghost predicate Sound(s: Ledger) {
    RowsOk(s.rows, s.issued) && LogOk(s.rows, s.issued, s.log) && CallsOk(s)
  }

  /** One call moves on, and nothing else changes. */
  lemma OneCall(s: Ledger, t: Ledger, c: nat, k: Call)
    requires Sound(s) && t.rows == s.rows && t.issued == s.issued && t.log == s.log
    requires t.calls == s.calls[c := k] && CallOk(s.rows, s.issued, s.log, k)
    requires Drew(k.phase) ==> c in s.calls && Drew(s.calls[c].phase) && k.result.id == s.calls[c].result.id
    ensures Sound(t)
  {
    hide CallOk, RowsOk, LogOk;
  }

  lemma SelectKeeps(s: Ledger, c: nat)
    requires Sound(s) && Enabled(s, Select(c))
    ensures Sound(Apply(s, Select(c)))
  {
    var t := Apply(s, Select(c));
    var i := Find(s.rows, s.calls[c].request);
    assert CallOk(s.rows, s.issued, s.log, s.calls[c]);
    if t.calls[c].phase.Claimed? {
      assert HasRow(s.rows, s.calls[c].result.id);
    }
    OneCall(s, t, c, t.calls[c]);
  }

  lemma InsertKeeps(s: Ledger, c: nat, id: nat, now: int)
    requires Sound(s) && Enabled(s, Insert(c, id, now))
    ensures Sound(Apply(s, Insert(c, id, now))) && Settled(s.rows, Apply(s, Insert(c, id, now)).rows)
  {
    hide CallOk, RowsOk, LogOk, InsertRow;
    var t := Apply(s, Insert(c, id, now));
    var r := Intent(id, s.calls[c].request, now);
    InsertRows(s.rows, s.issued, s.log, r);
    forall d | d in s.calls
      ensures CallOk(t.rows, t.issued, t.log, s.calls[d])
    {
      InsertOthers(s.rows, s.issued, s.log, r, s.calls[d]);
    }
    FreshCall(t.rows, t.issued, t.log, t.calls[c]);
    forall d | d in s.calls && d != c && Drew(s.calls[d].phase)
      ensures s.calls[d].result.id != id
    {
      DrawnIsIssued(s.rows, s.issued, s.log, s.calls[d]);
    }
  }

  lemma FreshCall(rows: seq<Row>, issued: set<nat>, log: seq<nat>, c: Call)
    requires c.phase.Inserted? && c.result.id in issued && c.result.request == c.request
    requires c.result.status.Running? && Intact(rows, c.result) && c.result.id !in log
    ensures CallOk(rows, issued, log, c)
  {
  }

  lemma DrawnIsIssued(rows: seq<Row>, issued: set<nat>, log: seq<nat>, c: Call)
    requires CallOk(rows, issued, log, c) && Drew(c.phase)
    ensures c.result.id in issued && c.result.request == c.request
    ensures c.result.status.Running? && Intact(rows, c.result)
  {
  }

  /** A call replaces its own running row. */
  lemma StoreKeeps(s: Ledger, c: nat, r: Result, p: Phase)
    requires Sound(s) && c in s.calls && Owns(s.calls[c].phase)
    requires r.id == s.calls[c].result.id && r.request == s.calls[c].request
    requires p.Leaving? || (p.Saved? && r.status.Running? && !s.calls[c].phase.Dispatched?)
    ensures Sound(Record(s, c, r, p)) && Settled(s.rows, Record(s, c, r, p).rows)
  {
    hide CallOk, RowsOk, LogOk, FinishRow;
    var t := Record(s, c, r, p);
    var was := s.calls[c].result;
    assert CallOk(s.rows, s.issued, s.log, s.calls[c]);
    DrawnIsIssued(s.rows, s.issued, s.log, s.calls[c]);
    FinishRows(s.rows, s.issued, s.log, was, r);
    forall d | d in s.calls && d != c
      ensures CallOk(t.rows, t.issued, t.log, s.calls[d])
    {
      FinishOthers(s.rows, s.issued, s.log, r, s.calls[d]);
    }
    StoredCall(s.rows, s.issued, s.log, s.calls[c], r, p);
  }

  lemma StoredCall(rows: seq<Row>, issued: set<nat>, log: seq<nat>, c: Call, r: Result, p: Phase)
    requires CallOk(rows, issued, log, c) && Owns(c.phase)
    requires r.id == c.result.id && r.request == c.request
    requires p.Leaving? || (p.Saved? && r.status.Running? && !c.phase.Dispatched?)
    ensures CallOk(FinishRow(rows, r), issued, log, c.(phase := p, result := r))
  {
    FinishHas(rows, r, r.id);
  }

  lemma DispatchKeeps(s: Ledger, c: nat)
    requires Sound(s) && Enabled(s, Dispatch(c))
    ensures Sound(Apply(s, Dispatch(c)))
  {
    assert CallOk(s.rows, s.issued, s.log, s.calls[c]);
    var t := Apply(s, Dispatch(c));
    forall d | d in t.calls
      ensures CallOk(t.rows, t.issued, t.log, t.calls[d])
    {
      assert CallOk(s.rows, s.issued, s.log, s.calls[d]);
    }
  }

  lemma RecoverKeeps(s: Ledger, i: nat)
    requires Sound(s) && Enabled(s, RecoverRow(i)) && s.calls == map[]
    ensures Sound(Apply(s, RecoverRow(i))) && Settled(s.rows, Apply(s, RecoverRow(i)).rows)
  {
    var was := s.rows[i].payload;
    FinishRows(s.rows, s.issued, s.log, was, was.(status := Unknown));
  }

  lemma FewerCalls(s: Ledger, t: Ledger)
    requires Sound(s) && t.rows == s.rows && t.issued == s.issued && t.log == s.log
    requires forall c | c in t.calls :: c in s.calls && t.calls[c] == s.calls[c]
    ensures Sound(t)
  {
    hide CallOk, RowsOk, LogOk;
  }

  lemma SoundKept(s: Ledger, a: Action)
    requires Sound(s) && (!s.up ==> s.calls == map[]) && Enabled(s, a)
    ensures Sound(Apply(s, a)) && Settled(s.rows, Apply(s, a).rows)
  {
    hide Sound, RowsOk, LogOk, CallsOk, InsertRow, FinishRow, Find, FinalStatus;
    var t := Apply(s, a);
    match a
    case Begin(c, r) => OneCall(s, t, c, t.calls[c]);
    case Acquire(c) => OneCall(s, t, c, t.calls[c]);
    case Authorise(c) => OneCall(s, t, c, t.calls[c]);
    case Insert(c, id, now) => InsertKeeps(s, c, id, now);
    case Select(c) => SelectKeeps(s, c);
    case Save(c) => OwnResult(s, c); StoreKeeps(s, c, t.calls[c].result, Saved);
    case NoArtifact(c) => OwnResult(s, c); StoreKeeps(s, c, t.calls[c].result, Leaving);
    case Dispatch(c) => DispatchKeeps(s, c);
    case Settle(c, _, _, _) => OwnResult(s, c); StoreKeeps(s, c, t.calls[c].result, Leaving);
    case Abandon(c) =>
      if s.calls[c].phase.Waiting? {
        FewerCalls(s, t);
      } else {
        OneCall(s, t, c, t.calls[c]);
      }
    case Release(c) => FewerCalls(s, t);
    case Crash => FewerCalls(s, t);
    case RecoverRow(i) => RecoverKeeps(s, i);
    case Restart => FewerCalls(s, t);
  }

  lemma OwnResult(s: Ledger, c: nat)
    requires Sound(s) && c in s.calls && Drew(s.calls[c].phase)
    ensures s.calls[c].result.request == s.calls[c].request && s.calls[c].result.status.Running?
  {
    assert CallOk(s.rows, s.issued, s.log, s.calls[c]);
  }

  lemma StepKeeps(s: Ledger, a: Action)
    requires Inv(s) && Enabled(s, a)
    ensures Inv(Apply(s, a)) && Settled(s.rows, Apply(s, a).rows)
  {
    hide Sound, LocksOk, InsertRow, FinishRow, Find;
    InvIs(s);
    SoundKept(s, a);
    LocksKept(s, a);
    InvIs(Apply(s, a));
  }

  lemma InvIs(s: Ledger)
    ensures Inv(s) <==> (!s.up ==> s.calls == map[]) && Sound(s) && LocksOk(s)
  {
  }

  // ------------------------------------------------------------- whole histories

  /** The ledger after the actions of a run; an action that is not enabled does nothing. */
  function Run(actions: seq<Action>): Ledger {
    if actions == [] then EMPTY else
    var s := Run(actions[..|actions| - 1]);
    var a := actions[|actions| - 1];
    if Enabled(s, a) then Apply(s, a) else s
  }

  lemma {:induction false} RunKeeps(actions: seq<Action>)
    ensures Inv(Run(actions))
  {
    hide Inv, Enabled, Apply;
    if actions == [] {
      EmptyHolds();
    } else {
      var s := Run(actions[..|actions| - 1]);
      RunKeeps(actions[..|actions| - 1]);
      if Enabled(s, actions[|actions| - 1]) {
        StepKeeps(s, actions[|actions| - 1]);
      }
    }
  }

  lemma EmptyHolds()
    ensures Inv(EMPTY)
  {
  }

  lemma SettledTransitive(a: seq<Row>, b: seq<Row>, c: seq<Row>)
    requires Settled(a, b) && Settled(b, c)
    ensures Settled(a, c)
  {
    forall i | 0 <= i < |a|
      ensures a[i].digest == c[i].digest && a[i].payload.id == c[i].payload.id
              && (!a[i].payload.status.Running? ==> c[i] == a[i])
    {
      assert b[i].digest == a[i].digest;
    }
  }

  /** A settled row stays as it is through everything that happens later, crashes included. */
  lemma {:induction false} SettledForGood(actions: seq<Action>, n: nat)
    requires n <= |actions|
    ensures Settled(Run(actions[..n]).rows, Run(actions).rows)
    decreases |actions|
  {
    hide Inv, Enabled, Apply, Settled;
    if n == |actions| {
      assert actions[..n] == actions;
      SettledReflexive(Run(actions).rows);
    } else {
      var earlier := actions[..|actions| - 1];
      var s := Run(earlier);
      assert earlier[..n] == actions[..n];
      SettledForGood(earlier, n);
      RunKeeps(earlier);
      if Enabled(s, actions[|actions| - 1]) {
        StepKeeps(s, actions[|actions| - 1]);
        SettledTransitive(Run(actions[..n]).rows, s.rows, Run(actions).rows);
      }
    }
  }

  lemma SettledReflexive(a: seq<Row>)
    ensures Settled(a, a)
  {
  }

  /** The request of a dispatched row. */
  ghost predicate DispatchedFor(s: Ledger, k: nat, r: Request) {
    k < |s.log| && exists i :: 0 <= i < |s.rows| && s.rows[i].payload.id == s.log[k] && s.rows[i].digest == r
  }

  /** In no history is one call of one task dispatched twice, not even with other arguments. */
  lemma DispatchedAtMostOnce(actions: seq<Action>, k: nat, l: nat, q: Request, r: Request)
    requires DispatchedFor(Run(actions), k, q) && DispatchedFor(Run(actions), l, r) && SameCall(q, r)
    ensures k == l && q == r
  {
    hide Run;
    RunKeeps(actions);
    var s := Run(actions);
    var i :| 0 <= i < |s.rows| && s.rows[i].payload.id == s.log[k] && s.rows[i].digest == q;
    var j :| 0 <= j < |s.rows| && s.rows[j].payload.id == s.log[l] && s.rows[j].digest == r;
    assert i == j;
  }

  /** Every dispatch has a row, so the two lemmas around this one speak of all of them. */
  lemma DispatchesRecorded(actions: seq<Action>, k: nat)
    requires k < |Run(actions).log|
    ensures exists r :: DispatchedFor(Run(actions), k, r)
  {
    hide Run;
    RunKeeps(actions);
    var s := Run(actions);
    assert HasRow(s.rows, s.log[k]);
    var i :| 0 <= i < |s.rows| && s.rows[i].payload.id == s.log[k];
    assert DispatchedFor(s, k, s.rows[i].digest);
  }

  /** Two calls on one host that may change it are never both past the lock. */
  lemma OneMutationPerHost(actions: seq<Action>, c: nat, d: nat)
    requires var s := Run(actions);
             && c in s.calls && d in s.calls
             && !s.calls[c].phase.Waiting? && !s.calls[d].phase.Waiting?
             && (forall e | e in {c, d} ::
                   s.calls[e].request.operation in
                     {"shell", "terminal_write", "upload_local", "file_write", "service_restart", "package_install"})
             && s.calls[c].request.hostId == s.calls[d].request.hostId
    ensures c == d
  {
    hide Run;
    RunKeeps(actions);
    var s := Run(actions);
    assert c in {c, d} && d in {c, d};
    HeldBy(s, c);
    HeldBy(s, d);
  }

  /** After a restart no row is running that no call is working on, unless its call gave up. */
  lemma RestartSettles(actions: seq<Action>)
    requires Enabled(Run(actions), Restart)
    ensures forall i | 0 <= i < |Run(actions).rows| ::
              !Apply(Run(actions), Restart).rows[i].payload.status.Running?
    ensures Apply(Run(actions), Restart).calls == map[]
  {
    RunKeeps(actions);
  }
}
