/** Answers for the tool calls that an interrupted turn left open. */
module HistoryRepair {

  datatype Role = User | System | Assistant | Tool

  /** `calls` are the identifiers of the tool calls a message makes, `answers` the one it answers. */
  datatype Message = Message(role: Role, calls: seq<string>, answers: string, content: string)

  /** What the text of a note says. */
  const NOTE := "interrupted: nothing is known of the outcome, look before repeating"

  function Note(call: string): Message { Message(Tool, [], call, NOTE) }

  predicate Calls(m: Message) { m.role.Assistant? && m.calls != [] }

  /** How many tool messages come first. */
  function ToolRun(h: seq<Message>): (n: nat)
    ensures n <= |h|
    ensures forall i | 0 <= i < n :: h[i].role.Tool?
    ensures n < |h| ==> !h[n].role.Tool?
  {
    if h == [] || !h[0].role.Tool? then 0 else 1 + ToolRun(h[1..])
  }

  predicate Answered(run: seq<Message>, call: string) { exists m :: m in run && m.answers == call }

  /** A note for every call that has no answer, in the order of the calls. */
  function Missing(calls: seq<string>, run: seq<Message>): seq<Message> {
    if calls == [] then [] else
    var n := |calls| - 1;
    Missing(calls[..n], run) + if Answered(run, calls[n]) then [] else [Note(calls[n])]
  }

  function Repaired(h: seq<Message>): seq<Message>
    decreases |h|
  {
    if h == [] then []
    else if !Calls(h[0]) then [h[0]] + Repaired(h[1..])
    else
      var n := 1 + ToolRun(h[1..]);
      h[..n] + Missing(h[0].calls, h[1..n]) + Repaired(h[n..])
  }

  // ------------------------------------------------------------------ method

  method CompleteInterruptedToolCalls(history: seq<Message>) returns (out: seq<Message>)
    ensures out == Repaired(history)
  {
    hide Repaired, ToolRun, Missing;
    out := [];
    var i := 0;
    while i < |history|
      invariant i <= |history| && out + Repaired(history[i..]) == Repaired(history)
      decreases |history| - i
    {
      var m := history[i];
      if m.role != Assistant || |m.calls| == 0 {
        RepairedPlain(history[i..]);
        out := out + [m];
        i := i + 1;
        continue;
      }
      var n, answered := CopyRun(history, i + 1);
      var notes := Notes(m.calls, answered, history[i + 1..n]);
      RepairedFrom(history, i, n, out);
      out := out + [m] + history[i + 1..n] + notes;
      i := n;
    }
    NothingToDo(history[i..]);
  }

  /** The tool messages from position `i` on, and the calls they answer. */
  method CopyRun(history: seq<Message>, i: nat) returns (n: nat, answered: set<string>)
    requires i <= |history|
    ensures i <= n <= |history| && n - i == ToolRun(history[i..]) && answered == Answers(history[i..n])
  {
    n, answered := i, {};
    while n < |history| && history[n].role.Tool?
      invariant i <= n <= |history| && answered == Answers(history[i..n])
      invariant forall j | i <= j < n :: history[j].role.Tool?
    {
      answered := answered + {history[n].answers};
      assert history[i..n + 1] == history[i..n] + [history[n]];
      n := n + 1;
    }
    RunIsAll(history[i..], n - i);
  }

  method Notes(calls: seq<string>, answered: set<string>, ghost run: seq<Message>) returns (notes: seq<Message>)
    requires answered == Answers(run)
    ensures notes == Missing(calls, run)
  {
    notes := [];
    for k := 0 to |calls|
      invariant notes == Missing(calls[..k], run)
    {
      assert calls[..k + 1][..k] == calls[..k];
      AnsweredIs(run, calls[k]);
      if calls[k] !in answered {
        notes := notes + [Note(calls[k])];
      }
    }
    assert calls[..|calls|] == calls;
  }

  function Answers(run: seq<Message>): set<string> { set m | m in run :: m.answers }

  lemma AnsweredIs(run: seq<Message>, call: string)
    ensures Answered(run, call) <==> call in Answers(run)
  {
  }

  lemma {:induction false} RunIsAll(h: seq<Message>, n: nat)
    requires n <= |h| && (forall i | 0 <= i < n :: h[i].role.Tool?) && (n < |h| ==> !h[n].role.Tool?)
    ensures ToolRun(h) == n
  {
    if n > 0 {
      RunIsAll(h[1..], n - 1);
    }
  }

  // -------------------------------------------------------------- properties

  /** The tool messages right behind position `i`. */
  function RunBehind(h: seq<Message>, i: nat): seq<Message>
    requires i < |h|
  {
    h[i + 1..][..ToolRun(h[i + 1..])]
  }

  predicate AnsweredAt(h: seq<Message>, i: nat)
    requires i < |h|
  {
    h[i].role == Assistant && h[i].calls != [] ==> AllAnswered(h[i].calls, RunBehind(h, i))
  }

  /** Each call is answered in the run of tool messages right behind it. */
  predicate Complete(h: seq<Message>) { forall i | 0 <= i < |h| :: AnsweredAt(h, i) }

  /** What stands in front makes no difference. */
  lemma AnsweredBehind(front: seq<Message>, h: seq<Message>, i: nat)
    requires i < |h|
    ensures AnsweredAt(front + h, |front| + i) <==> AnsweredAt(h, i)
  {
    hide ToolRun, AllAnswered;
    assert (front + h)[|front| + i + 1..] == h[i + 1..];
  }

  predicate AllAnswered(calls: seq<string>, run: seq<Message>) {
    forall k | 0 <= k < |calls| :: Answered(run, calls[k])
  }

  lemma {:induction false} MissingAre(calls: seq<string>, run: seq<Message>)
    ensures forall m | m in Missing(calls, run) :: m == Note(m.answers) && m.answers in calls && !Answered(run, m.answers)
    ensures forall k | 0 <= k < |calls| && !Answered(run, calls[k]) :: Note(calls[k]) in Missing(calls, run)
    ensures Missing(calls, run) == [] <==> AllAnswered(calls, run)
  {
    if calls != [] {
      var n := |calls| - 1;
      MissingAre(calls[..n], run);
      assert calls == calls[..n] + [calls[n]];
    }
  }

  /** The positions in `ks` are those of the calls without an answer, in order. */
  ghost predicate AreOpen(calls: seq<string>, run: seq<Message>, ks: seq<nat>) {
    && (forall j | 0 <= j < |ks| :: ks[j] < |calls| && !Answered(run, calls[ks[j]]))
    && (forall i, j | 0 <= i < j < |ks| :: ks[i] < ks[j])
    && (forall k: nat | k < |calls| && !Answered(run, calls[k]) :: k in ks)
  }

  lemma OpenMore(calls: seq<string>, run: seq<Message>, ks: seq<nat>)
    requires calls != [] && AreOpen(calls[..|calls| - 1], run, ks)
    ensures var n := |calls| - 1; AreOpen(calls, run, if Answered(run, calls[n]) then ks else ks + [n])
  {
    hide Answered;
    var n := |calls| - 1;
    var before := calls[..n];
    assert forall k | 0 <= k < n :: before[k] == calls[k];
    var all := if Answered(run, calls[n]) then ks else ks + [n];
    forall k: nat | k < |calls| && !Answered(run, calls[k])
      ensures k in all
    {
      if k < n {
        assert !Answered(run, before[k]);
      } else {
        assert all[|ks|] == n;
      }
    }
  }

  /** The notes are for the calls without an answer: one for each, in the order of the calls. */
  lemma {:induction false} MissingIs(calls: seq<string>, run: seq<Message>) returns (ks: seq<nat>)
    ensures AreOpen(calls, run, ks) && |ks| == |Missing(calls, run)|
    ensures forall j | 0 <= j < |ks| :: ks[j] < |calls| && Missing(calls, run)[j] == Note(calls[ks[j]])
  {
    hide Answered, AreOpen, Note;
    ks := [];
    if calls == [] {
      NoneOpen(run);
    } else {
      var n := |calls| - 1;
      var before := MissingIs(calls[..n], run);
      OpenMore(calls, run, before);
      ks := if Answered(run, calls[n]) then before else before + [n];
      OpenInside(calls[..n], run, before);
      forall j | 0 <= j < |ks|
        ensures ks[j] < |calls| && Missing(calls, run)[j] == Note(calls[ks[j]])
      {
        if j < |before| {
          assert calls[..n][before[j]] == calls[before[j]];
        }
      }
      OpenInside(calls, run, ks);
    }
  }

  lemma NoneOpen(run: seq<Message>)
    ensures AreOpen([], run, [])
  {
  }

  lemma OpenInside(calls: seq<string>, run: seq<Message>, ks: seq<nat>)
    requires AreOpen(calls, run, ks)
    ensures forall j | 0 <= j < |ks| :: ks[j] < |calls|
  {
  }

  lemma MissingAnswer(calls: seq<string>, run: seq<Message>)
    ensures AllAnswered(calls, run + Missing(calls, run))
  {
    MissingAre(calls, run);
    forall k | 0 <= k < |calls|
      ensures Answered(run + Missing(calls, run), calls[k])
    {
      if Answered(run, calls[k]) {
        var m :| m in run && m.answers == calls[k];
        assert m in run + Missing(calls, run);
      } else {
        assert Note(calls[k]) in run + Missing(calls, run);
      }
    }
  }

  lemma ToolRunOf(run: seq<Message>, rest: seq<Message>)
    requires (forall m | m in run :: m.role.Tool?) && (rest != [] ==> !rest[0].role.Tool?)
    ensures ToolRun(run + rest) == |run|
  {
    RunIsAll(run + rest, |run|);
  }

  /** The first message is never changed. */
  lemma Head(h: seq<Message>)
    ensures Repaired(h) == [] <==> h == []
    ensures h != [] ==> Repaired(h)[0] == h[0]
  {
  }

  lemma CompleteStep(m: Message, run: seq<Message>, rest: seq<Message>)
    requires (forall r | r in run :: r.role.Tool?) && (rest != [] ==> !rest[0].role.Tool?) && Complete(rest)
    requires Calls(m) ==> AllAnswered(m.calls, run)
    ensures Complete([m] + run + rest)
  {
    hide ToolRun, AllAnswered;
    var h := [m] + run + rest;
    forall i | 0 <= i < |h|
      ensures AnsweredAt(h, i)
    {
      if i == 0 {
        ToolRunOf(run, rest);
        assert h[1..] == run + rest;
      } else if i <= |run| {
        assert h[i] in run;
      } else {
        AnsweredBehind([m] + run, rest, i - 1 - |run|);
      }
    }
  }

  /** The parts of a repaired history whose first message makes calls. */
  lemma RepairedCall(h: seq<Message>)
    requires h != [] && Calls(h[0])
    ensures var n := 1 + ToolRun(h[1..]);
            Repaired(h) == [h[0]] + (h[1..n] + Missing(h[0].calls, h[1..n])) + Repaired(h[n..])
  {
    var n := 1 + ToolRun(h[1..]);
    assert h[..n] == [h[0]] + h[1..n];
    Regroup([h[0]], h[1..n], Missing(h[0].calls, h[1..n]), Repaired(h[n..]));
  }

  lemma Regroup(a: seq<Message>, b: seq<Message>, c: seq<Message>, d: seq<Message>)
    ensures (a + b) + c + d == a + (b + c) + d
  {
  }

  /** The same, from position `i` on and with something in front. */
  lemma RepairedFrom(h: seq<Message>, i: nat, n: nat, front: seq<Message>)
    requires i < n <= |h| && Calls(h[i]) && n - i - 1 == ToolRun(h[i + 1..])
    ensures front + Repaired(h[i..])
            == front + [h[i]] + h[i + 1..n] + Missing(h[i].calls, h[i + 1..n]) + Repaired(h[n..])
  {
    hide Repaired, ToolRun, Missing;
    RepairedCall(h[i..]);
    assert h[i..][1..] == h[i + 1..] && h[i..][1..n - i] == h[i + 1..n] && h[i..][n - i..] == h[n..];
    var (a, b, c, d) := ([h[i]], h[i + 1..n], Missing(h[i].calls, h[i + 1..n]), Repaired(h[n..]));
    assert front + (a + (b + c) + d) == front + a + b + c + d;
  }

  /** The answers behind the first message after the repair. */
  lemma RepairedRun(h: seq<Message>)
    requires h != [] && Calls(h[0])
    ensures var n := 1 + ToolRun(h[1..]);
            var run := h[1..n] + Missing(h[0].calls, h[1..n]);
            && (forall r | r in run :: r.role.Tool?) && AllAnswered(h[0].calls, run)
            && (Repaired(h[n..]) != [] ==> !Repaired(h[n..])[0].role.Tool?)
  {
    hide Repaired, AllAnswered, Missing;
    var n := 1 + ToolRun(h[1..]);
    MissingAre(h[0].calls, h[1..n]);
    MissingAnswer(h[0].calls, h[1..n]);
    Head(h[n..]);
  }

  /** After the repair no call is without an answer in its place. */
  lemma {:induction false} RepairCompletes(h: seq<Message>)
    ensures Complete(Repaired(h))
    decreases |h|
  {
    hide Repaired, Complete;
    if h == [] {
      NothingToDo(h);
    } else if Calls(h[0]) {
      var n := 1 + ToolRun(h[1..]);
      RepairedCall(h);
      RepairedRun(h);
      RepairCompletes(h[n..]);
      CompleteStep(h[0], h[1..n] + Missing(h[0].calls, h[1..n]), Repaired(h[n..]));
    } else {
      RepairedPlain(h);
      RepairCompletes(h[1..]);
      CompleteBehind(h[0], Repaired(h[1..]));
    }
  }

  lemma NothingToDo(h: seq<Message>)
    requires h == []
    ensures Repaired(h) == h && Complete(h)
  {
  }

  lemma RepairedPlain(h: seq<Message>)
    requires h != [] && !Calls(h[0])
    ensures Repaired(h) == [h[0]] + Repaired(h[1..])
  {
  }

  lemma CompleteBehind(m: Message, rest: seq<Message>)
    requires !Calls(m) && Complete(rest)
    ensures Complete([m] + rest)
  {
    hide ToolRun, AllAnswered;
    forall i | 0 < i < |[m] + rest|
      ensures AnsweredAt([m] + rest, i)
    {
      AnsweredBehind([m], rest, i - 1);
    }
  }

  lemma CompleteTail(h: seq<Message>, n: nat)
    requires Complete(h) && n <= |h|
    ensures Complete(h[n..])
  {
    hide ToolRun, AllAnswered;
    assert h == h[..n] + h[n..];
    forall j | 0 <= j < |h[n..]|
      ensures AnsweredAt(h[n..], j)
    {
      assert AnsweredAt(h, n + j);
      AnsweredBehind(h[..n], h[n..], j);
    }
  }

  /** A complete history is left alone. */
  lemma {:induction false} CompleteIsKept(h: seq<Message>)
    requires Complete(h)
    ensures Repaired(h) == h
    decreases |h|
  {
    hide Complete, ToolRun;
    if h == [] {
    } else if Calls(h[0]) {
      var n := 1 + ToolRun(h[1..]);
      FirstAnswered(h);
      MissingAre(h[0].calls, h[1..n]);
      CompleteTail(h, n);
      CompleteIsKept(h[n..]);
      assert h == h[..n] + [] + h[n..];
    } else {
      CompleteTail(h, 1);
      CompleteIsKept(h[1..]);
      assert h == [h[0]] + h[1..];
    }
  }

  lemma FirstAnswered(h: seq<Message>)
    requires Complete(h) && h != [] && Calls(h[0])
    ensures AllAnswered(h[0].calls, h[1..1 + ToolRun(h[1..])])
  {
    assert AnsweredAt(h, 0);
    assert h[1..][..ToolRun(h[1..])] == h[1..1 + ToolRun(h[1..])];
  }

  /** Repairing changes a history exactly if some call in it has no answer; twice is the same as once. */
  lemma RepairIsIdempotent(h: seq<Message>)
    ensures Repaired(Repaired(h)) == Repaired(h)
    ensures Repaired(h) == h <==> Complete(h)
  {
    hide Repaired, Complete;
    RepairCompletes(h);
    CompleteIsKept(Repaired(h));
    if Complete(h) {
      CompleteIsKept(h);
    }
  }

  // ------------------------------------------------------- nothing is lost

  /** `at` says where each old message stands. */
  predicate Stands(h: seq<Message>, out: seq<Message>, at: seq<nat>) {
    && |at| == |h|
    && (forall i | 0 <= i < |h| :: at[i] < |out| && out[at[i]] == h[i])
    && (forall i, j | 0 <= i < j < |h| :: at[i] < at[j])
  }

  /**
   What stands at `p` was added for message `i`: it is the note for a call that the message makes
   and that had no answer, and it stands in the run of answers behind the message.
   */
  predicate NoteFor(h: seq<Message>, out: seq<Message>, at: seq<nat>, p: nat, i: nat)
    requires |at| == |h| && p < |out|
  {
    && i < |h| && h[i].role == Assistant && out[p] == Note(out[p].answers)
    && out[p].answers in h[i].calls && !Answered(RunBehind(h, i), out[p].answers)
    && at[i] < p && forall q | at[i] < q <= p :: out[q].role.Tool?
  }

  /** Everything else are notes, each in its place. */
  ghost predicate OnlyNotes(h: seq<Message>, out: seq<Message>, at: seq<nat>)
    requires |at| == |h|
  {
    forall p: nat | p < |out| :: p in at || exists i: nat :: NoteFor(h, out, at, p, i)
  }

  /** No note comes first, or breaks into a run of answers. */
  predicate NotesBehind(h: seq<Message>, at: seq<nat>)
    requires |at| == |h|
  {
    && (forall i | 0 < i < |h| && h[i].role.Tool? :: at[i] == at[i - 1] + 1)
    && (h != [] ==> at[0] == 0)
  }

  /** Behind a message that makes calls stand its old answers, and then the notes. */
  predicate RunIsCompleted(h: seq<Message>, out: seq<Message>, at: seq<nat>, i: nat)
    requires |at| == |h| && i < |h|
  {
    at[i] < |out| && RunBehind(out, at[i]) == RunBehind(h, i) + Missing(h[i].calls, RunBehind(h, i))
  }

  predicate RunsAreCompleted(h: seq<Message>, out: seq<Message>, at: seq<nat>)
    requires |at| == |h|
  {
    forall i: nat | i < |h| && Calls(h[i]) :: RunIsCompleted(h, out, at, i)
  }

  ghost predicate Embeds(h: seq<Message>, out: seq<Message>, at: seq<nat>) {
    Stands(h, out, at) && OnlyNotes(h, out, at) && NotesBehind(h, at) && RunsAreCompleted(h, out, at)
  }

  function Moved(at: seq<nat>, n: nat): (r: seq<nat>)
    ensures |r| == |at| && forall i | 0 <= i < |at| :: r[i] == at[i] + n
  {
    seq(|at|, i requires 0 <= i < |at| => at[i] + n)
  }

  /** The run behind a message is the same with more history in front. */
  lemma RunBehindFront(front: seq<Message>, h: seq<Message>, i: nat)
    requires i < |h|
    ensures RunBehind(front + h, |front| + i) == RunBehind(h, i)
  {
    hide ToolRun;
    assert (front + h)[|front| + i + 1..] == h[i + 1..];
  }

  /** And the same with more history behind, unless that goes on with answers. */
  lemma RunBehindMore(h: seq<Message>, h2: seq<Message>, i: nat)
    requires i < |h| && (h2 != [] ==> !h2[0].role.Tool?)
    ensures RunBehind(h + h2, i) == RunBehind(h, i)
  {
    var rest := h[i + 1..];
    assert (h + h2)[i + 1..] == rest + h2;
    var n := ToolRun(rest);
    RunIsAll(rest + h2, n);
  }

  lemma NoteMoves(
      h: seq<Message>, out: seq<Message>, at: seq<nat>, h2: seq<Message>, out2: seq<Message>, at2: seq<nat>, p: nat, i: nat)
    requires Stands(h, out, at) && Stands(h2, out2, at2) && p < |out2| && NoteFor(h2, out2, at2, p, i)
    ensures NoteFor(h + h2, out + out2, at + Moved(at2, |out|), |out| + p, |h| + i)
  {
    hide RunBehind;
    RunBehindFront(h, h2, i);
    var (all, whole) := (at + Moved(at2, |out|), out + out2);
    assert whole[|out| + p] == out2[p] && (h + h2)[|h| + i] == h2[i] && all[|h| + i] == |out| + at2[i];
    forall q | all[|h| + i] < q <= |out| + p
      ensures whole[q].role.Tool?
    {
      assert whole[q] == out2[q - |out|];
    }
  }

  lemma NoteStays(
      h: seq<Message>, out: seq<Message>, at: seq<nat>, h2: seq<Message>, out2: seq<Message>, at2: seq<nat>, p: nat, i: nat)
    requires Stands(h, out, at) && Stands(h2, out2, at2) && p < |out| && NoteFor(h, out, at, p, i)
    requires h2 != [] ==> !h2[0].role.Tool?
    ensures NoteFor(h + h2, out + out2, at + Moved(at2, |out|), p, i)
  {
    hide RunBehind;
    RunBehindMore(h, h2, i);
  }

  lemma OnlyNotesJoin(
      h: seq<Message>, out: seq<Message>, at: seq<nat>, h2: seq<Message>, out2: seq<Message>, at2: seq<nat>)
    requires Stands(h, out, at) && Stands(h2, out2, at2) && OnlyNotes(h, out, at) && OnlyNotes(h2, out2, at2)
    requires (h2 != [] ==> !h2[0].role.Tool?) || forall p: nat | p < |out| :: p in at
    ensures OnlyNotes(h + h2, out + out2, at + Moved(at2, |out|))
  {
    hide NoteFor;
    var (all, whole) := (at + Moved(at2, |out|), out + out2);
    forall p: nat | p < |whole|
      ensures p in all || exists i: nat :: NoteFor(h + h2, whole, all, p, i)
    {
      if p < |out| {
        if p !in at {
          var i: nat :| NoteFor(h, out, at, p, i);
          NoteStays(h, out, at, h2, out2, at2, p, i);
        }
      } else if p - |out| in at2 {
        var i :| 0 <= i < |at2| && at2[i] == p - |out|;
        assert all[|at| + i] == p;
      } else {
        var i: nat :| NoteFor(h2, out2, at2, p - |out|, i);
        NoteMoves(h, out, at, h2, out2, at2, p - |out|, i);
      }
    }
  }

  lemma StandsJoin(h: seq<Message>, out: seq<Message>, at: seq<nat>, h2: seq<Message>, out2: seq<Message>, at2: seq<nat>)
    requires Stands(h, out, at) && Stands(h2, out2, at2)
    ensures Stands(h + h2, out + out2, at + Moved(at2, |out|))
  {
  }

  lemma NotesBehindJoin(h: seq<Message>, out: seq<Message>, at: seq<nat>, h2: seq<Message>, out2: seq<Message>, at2: seq<nat>)
    requires Stands(h, out, at) && Stands(h2, out2, at2) && NotesBehind(h, at) && NotesBehind(h2, at2) && h != []
    requires h2 != [] && h2[0].role.Tool? ==> at[|h| - 1] == |out| - 1
    ensures NotesBehind(h + h2, at + Moved(at2, |out|))
  {
    var all := at + Moved(at2, |out|);
    forall i | 0 < i < |h + h2| && (h + h2)[i].role.Tool?
      ensures all[i] == all[i - 1] + 1
    {
      if i > |h| {
        assert (h + h2)[i] == h2[i - |h|];
      }
    }
  }

  lemma RunsJoin(
      h: seq<Message>, out: seq<Message>, at: seq<nat>, h2: seq<Message>, out2: seq<Message>, at2: seq<nat>)
    requires Stands(h, out, at) && Stands(h2, out2, at2) && RunsAreCompleted(h, out, at) && RunsAreCompleted(h2, out2, at2)
    requires h2 == [] ==> out2 == []
    requires NotesBehind(h2, at2)
    requires (h2 != [] ==> !h2[0].role.Tool?) || forall i | 0 <= i < |h| :: !Calls(h[i])
    ensures RunsAreCompleted(h + h2, out + out2, at + Moved(at2, |out|))
  {
    hide RunBehind, Missing, Calls;
    var (all, whole) := (at + Moved(at2, |out|), out + out2);
    forall i: nat | i < |h + h2| && Calls((h + h2)[i])
      ensures RunIsCompleted(h + h2, whole, all, i)
    {
      if i < |h| {
        assert (h + h2)[i] == h[i] && all[i] == at[i];
        assert RunIsCompleted(h, out, at, i);
        assert h2 != [] ==> out2 != [] && out2[0] == h2[0];
        RunBehindMore(h, h2, i);
        RunBehindMore(out, out2, at[i]);
      } else {
        var j := i - |h|;
        assert (h + h2)[i] == h2[j] && all[i] == |out| + at2[j];
        assert RunIsCompleted(h2, out2, at2, j);
        RunBehindFront(h, h2, j);
        RunBehindFront(out, out2, at2[j]);
      }
    }
  }

  /** Two stretches of history one behind the other. */
  lemma EmbedsJoin(h: seq<Message>, out: seq<Message>, at: seq<nat>, h2: seq<Message>, out2: seq<Message>, at2: seq<nat>)
    requires Embeds(h, out, at) && Embeds(h2, out2, at2) && h != []
    requires h2 == [] ==> out2 == []
    requires || (h2 != [] ==> !h2[0].role.Tool?)
             || (at[|h| - 1] == |out| - 1 && (forall p: nat | p < |out| :: p in at) && forall i | 0 <= i < |h| :: !Calls(h[i]))
    ensures Embeds(h + h2, out + out2, at + Moved(at2, |out|))
  {
    hide OnlyNotes, Stands, NotesBehind, RunsAreCompleted, Calls;
    RunsJoin(h, out, at, h2, out2, at2);
    OnlyNotesJoin(h, out, at, h2, out2, at2);
    StandsJoin(h, out, at, h2, out2, at2);
    NotesBehindJoin(h, out, at, h2, out2, at2);
  }

  lemma NoteInPlace(m: Message, run: seq<Message>, at: seq<nat>, p: nat)
    requires (forall r | r in run :: r.role.Tool?) && Calls(m)
    requires |at| == 1 + |run| && at[0] == 0 && |run| < p < |[m] + run + Missing(m.calls, run)|
    ensures NoteFor([m] + run, [m] + run + Missing(m.calls, run), at, p, 0)
  {
    hide ToolRun, Missing, Answered;
    var h, notes := [m] + run, Missing(m.calls, run);
    var out := h + notes;
    assert h[1..] == run;
    RunIsAll(run, |run|);
    assert RunBehind(h, 0) == run;
    MissingAre(m.calls, run);
    assert out[p] in notes;
    forall q | 0 < q <= p
      ensures out[q].role.Tool?
    {
      assert if q <= |run| then out[q] in run else out[q] in notes;
    }
  }

  /** The run behind a message is all that is there, if that is all answers. */
  lemma RunIsRest(m: Message, run: seq<Message>)
    requires forall i | 0 <= i < |run| :: run[i].role.Tool?
    ensures RunBehind([m] + run, 0) == run
  {
    assert ([m] + run)[1..] == run;
    RunIsAll(run, |run|);
  }

  lemma AnswersMakeNoCalls(m: Message, run: seq<Message>, i: nat)
    requires (forall r | r in run :: r.role.Tool?) && 0 < i <= |run|
    ensures !Calls(([m] + run)[i])
  {
    assert ([m] + run)[i] == run[i - 1] && run[i - 1] in run;
  }

  lemma AllAnswers(a: seq<Message>, b: seq<Message>, i: nat)
    requires (forall r | r in a :: r.role.Tool?) && (forall r | r in b :: r.role.Tool?) && i < |a + b|
    ensures (a + b)[i].role.Tool?
  {
    assert (a + b)[i] in a || (a + b)[i] in b;
  }

  /** The run behind the one message, and with the notes. */
  lemma RunOfOne(m: Message, run: seq<Message>, notes: seq<Message>)
    requires (forall r | r in run :: r.role.Tool?) && forall r | r in notes :: r.role.Tool?
    ensures RunBehind([m] + run, 0) == run && RunBehind([m] + run + notes, 0) == run + notes
    ensures forall i | 0 < i <= |run| :: !Calls(([m] + run)[i])
  {
    hide RunBehind, Calls;
    forall i | 0 <= i < |run|
      ensures run[i].role.Tool?
    {
      assert run[i] in run;
    }
    RunIsRest(m, run);
    forall i | 0 <= i < |run + notes|
      ensures (run + notes)[i].role.Tool?
    {
      AllAnswers(run, notes, i);
    }
    RunIsRest(m, run + notes);
    assert [m] + run + notes == [m] + (run + notes);
    forall i | 0 < i <= |run|
      ensures !Calls(([m] + run)[i])
    {
      AnswersMakeNoCalls(m, run, i);
    }
  }

  /** A message and the answers behind it, with notes for the calls that have none. */
  lemma EmbedsRun(m: Message, run: seq<Message>, notes: seq<Message>) returns (at: seq<nat>)
    requires (forall r | r in run :: r.role.Tool?) && if Calls(m) then notes == Missing(m.calls, run) else notes == []
    ensures Embeds([m] + run, [m] + run + notes, at) && |at| == 1 + |run| && forall i | 0 <= i <= |run| :: at[i] == i
  {
    hide NoteFor, Missing, Calls, RunBehind;
    at := seq(1 + |run|, i => i);
    MissingAre(m.calls, run);
    RunOfOne(m, run, notes);
    forall p: nat | p < |[m] + run + notes|
      ensures p in at || exists i: nat :: NoteFor([m] + run, [m] + run + notes, at, p, i)
    {
      if p <= |run| {
        assert at[p] == p;
      } else {
        NoteInPlace(m, run, at, p);
      }
    }
  }

  /**
   The old history is still there, in order; what was added are notes, each in the run of answers
   behind the message that makes its call, for a call that had no answer.
   */
  lemma {:induction false} RepairOnlyAdds(h: seq<Message>) returns (at: seq<nat>)
    ensures Embeds(h, Repaired(h), at)
    decreases |h|
  {
    hide Embeds, Missing;
    if h == [] {
      at := [];
      NothingAdded();
    } else if Calls(h[0]) {
      var n := 1 + ToolRun(h[1..]);
      var notes := Missing(h[0].calls, h[1..n]);
      var first := EmbedsRun(h[0], h[1..n], notes);
      assert [h[0]] + h[1..n] == h[..n];
      var rest := RepairOnlyAdds(h[n..]);
      EmbedsJoin(h[..n], h[..n] + notes, first, h[n..], Repaired(h[n..]), rest);
      at := first + Moved(rest, |h[..n] + notes|);
      assert h[..n] + h[n..] == h;
    } else {
      var first := EmbedsRun(h[0], [], []);
      assert [h[0]] + [] + [] == [h[0]] + [] == [h[0]];
      assert first[0] == 0 && 0 in first;
      var rest := RepairOnlyAdds(h[1..]);
      EmbedsJoin([h[0]], [h[0]], first, h[1..], Repaired(h[1..]), rest);
      at := first + Moved(rest, 1);
      assert [h[0]] + h[1..] == h;
    }
  }

  lemma NothingAdded()
    ensures Embeds([], Repaired([]), [])
  {
  }
}
