/** The reader's side of the event log: one task at a time, read a piece at a time. */
module TaskHistory {
  import opened ChatLog

  /** The part of a stored task that is shown. */
  datatype Record = Record(status: string, summary: string)

  datatype Found = Missing | Found(record: Record)

  datatype Update = Update(id: string, status: string, text: string, messages: seq<Message>)

  /** What a reader remembers: the events it has read, and the record it saw last. */
  datatype History = History(id: string, seen: seq<Event>, loaded: bool, record: Record)

  const NOBODY := Record("", "")
  const STUCK := "stuck: the executions say why"

  function New(id: string): History { History(id, [], false, NOBODY) }

  function For(h: History, id: string): History { if h.id == id then h else New(id) }

  /** The sequence number up to which the log was read. */
  function Cursor(seen: seq<Event>): nat { if seen == [] then 0 else seen[|seen| - 1].sequence }

  /** SELECT ... WHERE task_id = id AND seq > after ORDER BY seq */
  function Events(log: seq<Event>, id: string, after: nat): seq<Event> {
    if log == [] then [] else
    var last := log[|log| - 1];
    Events(log[..|log| - 1], id, after) + if last.task == id && last.sequence > after then [last] else []
  }

  /** A load that succeeds. */
  function Read(h: History, id: string, record: Record, log: seq<Event>): History {
    var base := For(h, id);
    History(id, base.seen + Events(log, id, Cursor(base.seen)), true, record)
  }

  predicate Changes(h: History, id: string, record: Record, log: seq<Event>) {
    var base := For(h, id);
    !base.loaded || base.record != record || Events(log, id, Cursor(base.seen)) != []
  }

  /** Everything that is shown of a task, from all of its events and its record. */
  function Display(id: string, events: seq<Event>, record: Record): Update {
    var text := if record.status == "running" then RunningText(events) else SettledText(events);
    var messages := Messages(events);
    if record.status == "failed" then
      Update(id, "failed", text + "\n" + record.summary,
             messages + [Message("execution", record.summary), Message("notice", STUCK)])
    else if record.status == "blocked" then
      Update(id, "blocked", text + "\n" + record.summary, messages + [Message("notice", record.summary)])
    else Update(id, record.status, text, messages)
  }

  // ------------------------------------------------------- reading in pieces

  /** Sequence numbers start above zero and rise. */
  ghost predicate Ordered(log: seq<Event>) {
    && (forall i | 0 <= i < |log| :: log[i].sequence > 0)
    && (forall i, j | 0 <= i < j < |log| :: log[i].sequence < log[j].sequence)
  }

  /** The reader has read all events of its task up to some moment of the log. */
  ghost predicate Reflects(h: History, log: seq<Event>) {
    exists n :: 0 <= n <= |log| && h.seen == Events(log[..n], h.id, 0)
  }

  lemma {:induction false} EventsAreLogged(log: seq<Event>, id: string, after: nat)
    ensures forall e | e in Events(log, id, after) :: e in log && e.task == id && e.sequence > after
    ensures Ordered(log) ==> forall e | e in log && e.task == id && e.sequence > after :: e in Events(log, id, after)
  {
    if log != [] {
      EventsAreLogged(log[..|log| - 1], id, after);
      assert log == log[..|log| - 1] + [log[|log| - 1]];
    }
  }

  /** What was read before, and what is read next, are together everything. */
  lemma {:induction false} PiecesMakeAll(log: seq<Event>, n: nat, id: string)
    requires Ordered(log) && n <= |log|
    ensures var seen := Events(log[..n], id, 0);
            seen + Events(log, id, Cursor(seen)) == Events(log, id, 0)
    decreases |log|
  {
    hide Ordered, Cursor;
    var seen := Events(log[..n], id, 0);
    if n == |log| {
      assert log[..n] == log;
      CursorIsLast(log, id);
      NothingAfter(log, id, Cursor(seen));
    } else {
      var m := |log| - 1;
      assert log[..m][..n] == log[..n];
      OrderedPrefix(log, m);
      PiecesMakeAll(log[..m], n, id);
      CursorIsBelow(log, n, id);
      assert (seen + Events(log[..m], id, Cursor(seen))) + [log[m]] == seen + (Events(log[..m], id, Cursor(seen)) + [log[m]]);
      assert seen + (Events(log[..m], id, Cursor(seen)) + []) == seen + Events(log[..m], id, Cursor(seen));
    }
  }

  lemma OrderedPrefix(log: seq<Event>, n: nat)
    requires Ordered(log) && n <= |log|
    ensures Ordered(log[..n])
  {
  }

  lemma CursorIsBelow(log: seq<Event>, n: nat, id: string)
    requires Ordered(log) && n < |log|
    ensures 0 <= Cursor(Events(log[..n], id, 0)) < log[|log| - 1].sequence
  {
    var seen := Events(log[..n], id, 0);
    EventsAreLogged(log[..n], id, 0);
    if seen != [] {
      assert seen[|seen| - 1] in log[..n];
    }
  }

  lemma {:induction false} CursorIsLast(log: seq<Event>, id: string)
    requires Ordered(log)
    ensures forall e | e in log && e.task == id :: e.sequence <= Cursor(Events(log, id, 0))
  {
    if log != [] {
      var m := |log| - 1;
      OrderedPrefix(log, m);
      CursorIsLast(log[..m], id);
      forall e | e in log && e.task == id
        ensures e.sequence <= Cursor(Events(log, id, 0))
      {
        CursorRises(log, id);
        assert e in log[..m] || e == log[m];
      }
    }
  }

  /** Reading one more event moves the cursor to it, or leaves it. */
  lemma CursorRises(log: seq<Event>, id: string)
    requires Ordered(log) && log != []
    ensures var m := |log| - 1;
            && Cursor(Events(log[..m], id, 0)) <= Cursor(Events(log, id, 0))
            && (log[m].task == id ==> Cursor(Events(log, id, 0)) == log[m].sequence)
  {
    var m := |log| - 1;
    CursorIsBelow(log, m, id);
    var before := Events(log[..m], id, 0);
    assert before + [] == before;
  }

  lemma {:induction false} NothingAfter(log: seq<Event>, id: string, after: nat)
    requires forall e | e in log && e.task == id :: e.sequence <= after
    ensures Events(log, id, after) == []
  {
    if log != [] {
      NothingAfter(log[..|log| - 1], id, after);
    }
  }

  /** However often and whenever a task was read, the reader holds what a single reading would give. */
  lemma ReadIsWhole(h: History, id: string, record: Record, log: seq<Event>)
    requires Ordered(log) && Reflects(h, log)
    ensures Read(h, id, record, log) == History(id, Events(log, id, 0), true, record)
    ensures Reflects(Read(h, id, record, log), log)
  {
    var base := For(h, id);
    if h.id == id {
      var n :| 0 <= n <= |log| && h.seen == Events(log[..n], h.id, 0);
      PiecesMakeAll(log, n, id);
    } else {
      assert [] + Events(log, id, 0) == Events(log, id, 0);
    }
    assert log[..|log|] == log;
  }

  /** A reader that is told nothing has changed would have been shown the same again. */
  lemma UnchangedIsSame(h: History, id: string, record: Record, log: seq<Event>)
    requires !Changes(h, id, record, log)
    ensures Read(h, id, record, log) == h
  {
    assert h.seen + [] == h.seen;
  }

  lemma ReflectsLater(h: History, log: seq<Event>, e: Event)
    requires Reflects(h, log)
    ensures Reflects(h, log + [e])
  {
    var n :| 0 <= n <= |log| && h.seen == Events(log[..n], h.id, 0);
    assert (log + [e])[..n] == log[..n];
  }

  // ------------------------------------------------------------------ object

  datatype Outcome = Failed | Unchanged | Changed(id: string, status: string, text: string, messages: array<Message>)

  class Reader {
    var buffer: array<Message>
    var count: nat
    var id: string
    var after: nat
    var running: string
    var settled: string
    var record: Record
    var loaded: bool
    ghost var seen: seq<Event>

    ghost predicate Valid()
      reads this, buffer
    {
      && count <= buffer.Length && buffer[..count] == Messages(seen)
      && after == Cursor(seen) && running == RunningText(seen) && settled == SettledText(seen)
    }

    ghost function View(): History
      reads this
    {
      History(id, seen, loaded, record)
    }

    constructor ()
      ensures Valid() && View() == New("") && fresh(buffer)
    {
      buffer := new Message[0];
      count, id, after, running, settled, record, loaded := 0, "", 0, "", "", NOBODY, false;
      seen := [];
    }

    method Reset(id: string)
      modifies this
      ensures Valid() && View() == New(id) && fresh(buffer)
    {
      buffer := new Message[0];
      this.id := id;
      count, after, running, settled, record, loaded := 0, 0, "", "", NOBODY, false;
      seen := [];
    }

    /** The last message grows in place, or a new one is put behind it. */
    method Append(e: Event)
      requires count <= buffer.Length
      modifies this`buffer, this`count, buffer
      ensures count <= buffer.Length && buffer[..count] == AppendChatEvent(old(buffer[..count]), e)
      ensures buffer == old(buffer) || fresh(buffer)
    {
      var entry := EntryOf(e);
      if entry.Hidden? {
        return;
      }
      var m := entry.message;
      if count > 0 && buffer[count - 1].kind == m.kind && Merges(m.kind) {
        buffer[count - 1] := Message(m.kind, buffer[count - 1].text + Separator(m.kind) + m.text);
        return;
      }
      if count == buffer.Length {
        Grow(m);
      }
      buffer[count] := m;
      count := count + 1;
    }

    method Grow(m: Message)
      requires count == buffer.Length
      modifies this`buffer
      ensures fresh(buffer) && count < buffer.Length && buffer[..count] == old(buffer[..count])
    {
      var larger := new Message[2 * count + 1](_ => m);
      for i := 0 to count
        invariant buffer == old(buffer) && forall j | 0 <= j < i :: larger[j] == buffer[j]
      {
        larger[i] := buffer[i];
      }
      buffer := larger;
    }

    method Copy(extra: seq<Message>) returns (a: array<Message>)
      requires count <= buffer.Length
      ensures fresh(a) && a[..] == buffer[..count] + extra
    {
      ghost var whole := buffer[..count] + extra;
      a := new Message[count + |extra|](i requires 0 <= i < count + |extra| reads this, buffer
             requires count <= buffer.Length => if i < count then buffer[i] else extra[i - count]);
      assert a[..] == whole;
    }

    /** `found` is what the first query gave; the events are read by a second one, from `log`. */
    method Load(id: string, found: Found, log: seq<Event>, broken: bool) returns (o: Outcome)
      requires Valid()
      modifies this, buffer
      ensures Valid() && (buffer == old(buffer) || fresh(buffer))
      ensures o.Failed? <==> found.Missing? || broken
      ensures o.Failed? ==> View() == For(old(View()), id)
      ensures found.Found? && !broken ==>
                && View() == Read(old(View()), id, found.record, log)
                && (o.Changed? <==> Changes(old(View()), id, found.record, log))
      ensures o.Changed? ==>
                && fresh(o.messages) && o.messages != buffer
                && Update(o.id, o.status, o.text, o.messages[..]) == Display(id, seen, record)
    {
      if this.id != id {
        Reset(id);
      }
      if found.Missing? || broken {
        return Failed;
      }
      var changed := Take(found.record, log);
      if !changed {
        return Unchanged;
      }
      o := Present();
    }

    method Fold(e: Event)
      requires Valid()
      modifies this`buffer, this`count, this`running, this`settled, this`after, this`seen, buffer
      ensures Valid() && (buffer == old(buffer) || fresh(buffer)) && seen == old(seen) + [e]
    {
      hide Messages, RunningText, SettledText, AppendChatEvent, TaskEventText, Cursor;
      Append(e);
      FoldOne(seen, e);
      running := running + TaskEventText(e);
      if e.kind != "execution_delta" {
        settled := settled + TaskEventText(e);
      }
      after := e.sequence;
      seen := seen + [e];
    }

    /** Fold the new events in. */
    method Take(found: Record, log: seq<Event>) returns (changed: bool)
      requires Valid()
      modifies this, buffer
      ensures Valid() && (buffer == old(buffer) || fresh(buffer))
      ensures View() == Read(old(View()), old(id), found, log)
      ensures changed <==> Changes(old(View()), old(id), found, log)
    {
      hide Messages, RunningText, SettledText, Events;
      var events := Events(log, id, after);
      changed := !loaded || record != found || |events| > 0;
      ghost var before := seen;
      for i := 0 to |events|
        invariant Valid() && seen == before + events[..i]
        invariant buffer == old(buffer) || fresh(buffer)
        invariant id == old(id) && loaded == old(loaded) && record == old(record)
      {
        Fold(events[i]);
        assert events[..i + 1] == events[..i] + [events[i]];
      }
      assert events[..|events|] == events;
      loaded := true;
      record := found;
    }

    method Present() returns (o: Outcome)
      requires Valid()
      ensures o.Changed? && fresh(o.messages) && o.messages != buffer
      ensures Update(o.id, o.status, o.text, o.messages[..]) == Display(id, seen, record)
    {
      hide Messages, RunningText, SettledText;
      var text := settled;
      if record.status == "running" {
        text := running;
      }
      var extra := [];
      if record.status == "failed" {
        text := text + "\n" + record.summary;
      }
      if record.status == "blocked" {
        text := text + "\n" + record.summary;
        extra := extra + [Message("notice", record.summary)];
      }
      if record.status == "failed" {
        extra := extra + [Message("execution", record.summary), Message("notice", STUCK)];
      }
      var messages := Copy(extra);
      assert Messages(seen) + [] == Messages(seen);
      o := Changed(id, record.status, text, messages);
    }
  }

  lemma FoldOne(seen: seq<Event>, e: Event)
    ensures Messages(seen + [e]) == AppendChatEvent(Messages(seen), e)
    ensures RunningText(seen + [e]) == RunningText(seen) + TaskEventText(e)
    ensures SettledText(seen + [e]) == SettledText(seen) + if e.kind == "execution_delta" then "" else TaskEventText(e)
    ensures Cursor(seen + [e]) == e.sequence
  {
    assert (seen + [e])[..|seen|] == seen;
  }

  /** What one later load is asked for and finds. */
  datatype Request = Request(id: string, found: Found, log: seq<Event>, broken: bool)

  /** What was handed out once stays as it was through any later loads, although the reader goes on in place. */
  method HandedOutStays(r: Reader, id: string, record: Record, log: seq<Event>, later: seq<Request>)
    returns (o: Outcome)
    requires r.Valid()
    modifies r, r.buffer
    ensures r.Valid()
    ensures o.Changed? <==> Changes(old(r.View()), id, record, log)
    ensures o.Changed? ==>
              && o.messages != r.buffer
              && Update(o.id, o.status, o.text, o.messages[..]) ==
                 Display(id, Read(old(r.View()), id, record, log).seen, record)
  {
    o := r.Load(id, Found(record), log, false);
    ghost var shown := Display(id, r.seen, record);
    for i := 0 to |later|
      invariant r.Valid() && (r.buffer == old(r.buffer) || fresh(r.buffer))
      invariant o.Changed? ==>
                  && fresh(o.messages) && o.messages != r.buffer
                  && Update(o.id, o.status, o.text, o.messages[..]) == shown
    {
      var again := r.Load(later[i].id, later[i].found, later[i].log, later[i].broken);
    }
  }
}
