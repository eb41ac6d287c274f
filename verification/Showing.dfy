/** What the reader of a task gets to see, and where its words come from. */
module Showing {
  import opened ChatLog
  import opened TaskHistory
  import LiveView

  // ----------------------------------------------------------------- the text

  /** The parts stand in the text one behind the other. */
  predicate InOrder(parts: seq<string>, s: string)
    decreases |parts|
  {
    parts == [] || exists i :: 0 <= i <= |s| - |parts[0]| && parts[0] <= s[i..] && InOrder(parts[1..], s[i + |parts[0]|..])
  }

  /** The words of everything that is told as it happens. */
  function Told(events: seq<Event>): seq<string> {
    if events == [] then [] else
    var last := events[|events| - 1];
    Told(events[..|events| - 1]) + TellsOf(last)
  }

  function TellsOf(e: Event): seq<string> {
    if e.kind in {"assistant_delta", "assistant", "execution_delta", "user", "execution_start", "execution_result", "verified"}
    then [e.text] else []
  }

  lemma {:induction false} InOrderLater(parts: seq<string>, s: string, front: string)
    requires InOrder(parts, s)
    ensures InOrder(parts, front + s)
  {
    if parts != [] {
      var i :| 0 <= i <= |s| - |parts[0]| && parts[0] <= s[i..] && InOrder(parts[1..], s[i + |parts[0]|..]);
      var all, j := front + s, |front| + i;
      assert all[j..] == s[i..] && all[j + |parts[0]|..] == s[i + |parts[0]|..];
    }
  }

  lemma FirstInOrder(parts: seq<string>, s: string) returns (i: nat)
    requires InOrder(parts, s) && parts != []
    ensures i + |parts[0]| <= |s| && parts[0] <= s[i..] && InOrder(parts[1..], s[i + |parts[0]|..])
  {
    i :| 0 <= i <= |s| - |parts[0]| && parts[0] <= s[i..] && InOrder(parts[1..], s[i + |parts[0]|..]);
  }

  lemma MoreInOrder(x: string, parts: seq<string>, s: string, i: nat)
    requires i + |x| <= |s| && x <= s[i..] && InOrder(parts, s[i + |x|..])
    ensures InOrder([x] + parts, s)
  {
    assert ([x] + parts)[1..] == parts;
  }

  lemma {:induction false} InOrderJoin(a: seq<string>, s: string, b: seq<string>, t: string)
    requires InOrder(a, s) && InOrder(b, t)
    ensures InOrder(a + b, s + t)
    decreases |a|
  {
    hide InOrder;
    if a == [] {
      assert a + b == b;
      InOrderLater(b, t, s);
    } else {
      var x := a[0];
      var i := FirstInOrder(a, s);
      InOrderJoin(a[1..], s[i + |x|..], b, t);
      assert (s + t)[i..] == s[i..] + t && (s + t)[i + |x|..] == s[i + |x|..] + t;
      MoreInOrder(x, a[1..] + b, s + t, i);
      assert a + b == [x] + (a[1..] + b);
    }
  }

  lemma OneInside(x: string, before: string, behind: string)
    ensures InOrder([x], before + x + behind)
  {
    var s := before + x + behind;
    assert s[|before|..] == x + behind;
    assert InOrder([x][1..], s[|before| + |x|..]);
  }

  lemma TextTells(e: Event)
    ensures InOrder(TellsOf(e), TaskEventText(e))
  {
    hide InOrder;
    assert InOrder([], TaskEventText(e)) by {
      NothingInOrder(TaskEventText(e));
    }
    OneInside(e.text, "", "");
    assert "" + e.text + "" == e.text;
    OneInside(e.text, "\n\n你：", "\n\n");
    OneInside(e.text, "\n\n执行：", "\n");
    OneInside(e.text, "\n", "\n");
    OneInside(e.text, "\n验证：", "\n");
  }

  lemma NothingInOrder(s: string)
    ensures InOrder([], s)
  {
  }

  lemma {:induction false} RunningTells(events: seq<Event>)
    ensures InOrder(Told(events), RunningText(events))
  {
    hide InOrder, TellsOf, TaskEventText;
    if events == [] {
      NothingInOrder("");
    } else {
      var before, last := events[..|events| - 1], events[|events| - 1];
      RunningTells(before);
      TextTells(last);
      InOrderJoin(Told(before), RunningText(before), TellsOf(last), TaskEventText(last));
    }
  }

  // -------------------------------------------------------------- the messages

  /** The texts of the messages of one kind. */
  function Of(kind: string, messages: seq<Message>): seq<string> {
    if messages == [] then [] else
    var last := messages[|messages| - 1];
    Of(kind, messages[..|messages| - 1]) + if last.kind == kind then [last.text] else []
  }

  /** The words an event adds to a conversation as a message by itself. */
  function SaysOf(kind: string, e: Event): seq<string> {
    if kind == "user" && e.kind == "user" then [Before(e.text, MARK)]
    else if kind == "verified" && e.kind == "verified" then [e.text]
    else if kind == "plan" && e.kind == "plan_updated" && e.decoded.Words? then [e.decoded.text]
    else if kind == "subtask" && e.kind == "subtask_state" && e.decoded.Words? then [e.decoded.text]
    else if kind == "memory" && e.kind == "memory_state" then [if e.decoded.Words? then e.decoded.text else e.text]
    else if kind == "notice" && e.kind == "approval_required" then [ASK]
    else []
  }

  function Says(kind: string, events: seq<Event>): seq<string> {
    if events == [] then [] else Says(kind, events[..|events| - 1]) + SaysOf(kind, events[|events| - 1])
  }

  /** The lines of all executions. */
  function Lines(messages: seq<Message>): string {
    if messages == [] then "" else
    var last := messages[|messages| - 1];
    Lines(messages[..|messages| - 1]) + if last.kind == "execution" then last.text + "\n" else ""
  }

  function LinesOf(events: seq<Event>): string {
    if events == [] then "" else
    var last := events[|events| - 1];
    LinesOf(events[..|events| - 1])
    + if last.kind in {"execution_start", "execution_result", "tool_feedback"} then last.text + "\n" else ""
  }

  lemma AddOf(kind: string, messages: seq<Message>, m: Message)
    ensures !Merges(kind) ==> Of(kind, Add(messages, m)) == Of(kind, messages) + if m.kind == kind then [m.text] else []
    ensures Lines(Add(messages, m)) == Lines(messages) + if m.kind == "execution" then m.text + "\n" else ""
  {
    var n := |messages|;
    var out := Add(messages, m);
    if |out| == n {
      assert out[..n - 1] == messages[..n - 1];
      var last := messages[n - 1];
      assert m.kind == "execution" ==> last.text + "\n" + m.text + "\n" == last.text + "\n" + (m.text + "\n");
    } else {
      assert out[..n] == messages;
    }
  }

  /** No word of the user, of an execution or of a check is lost, and none is made up. */
  lemma {:induction false} MessagesSay(kind: string, events: seq<Event>)
    ensures kind in {"user", "verified", "plan", "subtask", "memory", "notice"} ==>
              Of(kind, Messages(events)) == Says(kind, events)
    ensures Lines(Messages(events)) == LinesOf(events)
  {
    hide EntryOf, SaysOf, Add;
    if events != [] {
      var before, last := events[..|events| - 1], events[|events| - 1];
      MessagesSay(kind, before);
      EntrySays(kind, last);
      match EntryOf(last)
      case Hidden =>
        assert Says(kind, before) + [] == Says(kind, before);
      case Shown(m) => AddOf(kind, Messages(before), m);
    }
  }

  lemma EntrySays(kind: string, e: Event)
    ensures match EntryOf(e)
            case Hidden =>
              && (kind in {"user", "verified", "plan", "subtask", "memory", "notice"} ==> SaysOf(kind, e) == [])
              && e.kind !in {"execution_start", "execution_result", "tool_feedback"}
            case Shown(m) =>
              && (kind in {"user", "verified", "plan", "subtask", "memory", "notice"} ==>
                    SaysOf(kind, e) == if m.kind == kind then [m.text] else [])
              && (m.kind == "execution" <==> e.kind in {"execution_start", "execution_result", "tool_feedback"})
              && (m.kind == "execution" ==> m.text == e.text)
  {
  }

  // ------------------------------------------------------- growing in one place

  /** Earlier messages stay as they are; the last one may get more text. */
  predicate Grows(a: seq<Message>, b: seq<Message>) {
    && |a| <= |b| && (forall i | 0 <= i < |a| - 1 :: b[i] == a[i])
    && (a != [] ==> b[|a| - 1].kind == a[|a| - 1].kind && a[|a| - 1].text <= b[|a| - 1].text)
  }

  lemma GrowsOn(a: seq<Message>, b: seq<Message>, c: seq<Message>)
    requires Grows(a, b) && Grows(b, c)
    ensures Grows(a, c)
  {
  }

  /** What has been shown of a conversation is only ever continued. */
  lemma {:induction false} MessagesGrow(a: seq<Event>, b: seq<Event>)
    ensures Grows(Messages(a), Messages(a + b))
    decreases |b|
  {
    if b == [] {
      assert a + b == a;
    } else {
      var n := |b| - 1;
      assert (a + b)[..|a| + n] == a + b[..n] && (a + b)[|a| + n] == b[n];
      MessagesGrow(a, b[..n]);
      AppendGrows(Messages(a + b[..n]), b[n]);
      GrowsOn(Messages(a), Messages(a + b[..n]), Messages(a + b));
    }
  }

  lemma AppendGrows(messages: seq<Message>, e: Event)
    ensures Grows(messages, AppendChatEvent(messages, e))
  {
    hide EntryOf;
  }

  // ----------------------------------------------------------------- updates

  lemma DeltaIsHidden(messages: seq<Message>, e: Event)
    requires e.kind == "execution_delta"
    ensures AppendChatEvent(messages, e) == messages
  {
  }

  lemma {:induction false} DeltaDoesNotSettle(a: seq<Event>, e: Event, b: seq<Event>)
    requires e.kind == "execution_delta"
    ensures SettledText(a + [e] + b) == SettledText(a + b) && Messages(a + [e] + b) == Messages(a + b)
    decreases |b|
  {
    hide TaskEventText, AppendChatEvent, SettledText, Messages, RunningText;
    if b == [] {
      FoldOne(a, e);
      DeltaIsHidden(Messages(a), e);
      assert a + b == a && a + [e] + b == a + [e];
      assert SettledText(a) + "" == SettledText(a);
    } else {
      var n := |b| - 1;
      assert a + [e] + b == a + [e] + b[..n] + [b[n]] && a + b == a + b[..n] + [b[n]];
      DeltaDoesNotSettle(a, e, b[..n]);
      FoldOne(a + [e] + b[..n], b[n]);
      FoldOne(a + b[..n], b[n]);
    }
  }

  /** When a task is not running, the pieces of output that came on the way make no difference. */
  lemma DeltasShowOnlyWhileRunning(id: string, a: seq<Event>, e: Event, b: seq<Event>, record: Record)
    requires e.kind == "execution_delta" && record.status != "running"
    ensures Display(id, a + [e] + b, record) == Display(id, a + b, record)
  {
    hide Messages, SettledText, RunningText;
    DeltaDoesNotSettle(a, e, b);
  }

  /** The words that an update has to show: all while the task is running, then all but those pieces. */
  function ToTell(events: seq<Event>, record: Record): seq<string> {
    Told(if record.status == "running" then events else WithoutDeltas(events))
  }

  /** An update that tells what has happened to a task. */
  ghost predicate Tells(u: Update, id: string, events: seq<Event>, record: Record) {
    && u.id == id && u.status == record.status && InOrder(ToTell(events, record), u.text)
    && (record.status in {"failed", "blocked"} ==> EndsWith(u.text, "\n" + record.summary))
    && Of("user", u.messages) == Says("user", events) && Of("verified", u.messages) == Says("verified", events)
    && Of("plan", u.messages) == Says("plan", events) && Of("subtask", u.messages) == Says("subtask", events)
    && Of("memory", u.messages) == Says("memory", events)
    && Of("notice", u.messages)
       == Says("notice", events)
          + (if record.status == "blocked" then [record.summary] else if record.status == "failed" then [STUCK] else [])
    && Lines(u.messages) == LinesOf(events) + (if record.status == "failed" then record.summary + "\n" else "")
  }

  predicate EndsWith(s: string, end: string) { |end| <= |s| && s[|s| - |end|..] == end }

  lemma TextToTell(events: seq<Event>, record: Record)
    ensures InOrder(ToTell(events, record),
                    if record.status == "running" then RunningText(events) else SettledText(events))
  {
    hide InOrder, RunningText, SettledText, WithoutDeltas, Told;
    RunningTells(events);
    RunningTells(WithoutDeltas(events));
    SettledIsRunningWithoutDeltas(events);
  }

  lemma OfMore(kind: string, messages: seq<Message>, m: Message)
    ensures Of(kind, messages + [m]) == Of(kind, messages) + if m.kind == kind then [m.text] else []
    ensures Lines(messages + [m]) == Lines(messages) + if m.kind == "execution" then m.text + "\n" else ""
  {
    assert (messages + [m])[..|messages|] == messages;
  }

  /** The messages of an update of one kind, with the notices behind them. */
  lemma NoticesAre(kind: string, id: string, events: seq<Event>, record: Record)
    requires kind in {"user", "verified", "plan", "subtask", "memory", "notice"}
    ensures var u := Display(id, events, record);
            && Of(kind, u.messages)
               == Says(kind, events)
                  + (if kind != "notice" then [] else if record.status == "blocked" then [record.summary]
                     else if record.status == "failed" then [STUCK] else [])
            && Lines(u.messages) == LinesOf(events) + (if record.status == "failed" then record.summary + "\n" else "")
  {
    hide Messages, RunningText, SettledText, Of, Says, Lines, LinesOf;
    MessagesSay(kind, events);
    var messages := Messages(events);
    var summary := Message("execution", record.summary);
    OfMore(kind, messages, Message("notice", record.summary));
    OfMore(kind, messages, summary);
    OfMore(kind, messages + [summary], Message("notice", STUCK));
    assert messages + [summary] + [Message("notice", STUCK)] == messages + [summary, Message("notice", STUCK)];
  }

  /** Every update tells what has happened, whatever the events and the record are. */
  lemma DisplayTells(id: string, events: seq<Event>, record: Record)
    ensures Tells(Display(id, events, record), id, events, record)
  {
    hide Of, Says, Lines, LinesOf, InOrder, ToTell, Messages, RunningText, SettledText;
    TextToTell(events, record);
    var text := if record.status == "running" then RunningText(events) else SettledText(events);
    AtTheEnd(ToTell(events, record), text, "\n" + record.summary);
    assert text + "\n" + record.summary == text + ("\n" + record.summary);
    NoticesAre("user", id, events, record);
    NoticesAre("verified", id, events, record);
    NoticesAre("plan", id, events, record);
    NoticesAre("subtask", id, events, record);
    NoticesAre("memory", id, events, record);
    NoticesAre("notice", id, events, record);
  }

  lemma AtTheEnd(parts: seq<string>, s: string, end: string)
    requires InOrder(parts, s)
    ensures InOrder(parts, s + end)
  {
    NothingInOrder(end);
    InOrderJoin(parts, s, [], end);
    assert parts + [] == parts;
  }

  /** In every interleaving: at rest the screen tells everything that was committed for the chosen task. */
  lemma ScreenTells(actions: seq<LiveView.Action>)
    requires LiveView.Rests(LiveView.Run(actions)) && !LiveView.Run(actions).failed
    ensures var s := LiveView.Run(actions);
            var id := s.ui.id;
            || (s.phase.Loading? && s.selected.id !in s.records) || id == ""
            || (id in s.records && s.screen.Shows? && Tells(s.screen.update, id, Events(s.log, id, 0), s.records[id]))
  {
    hide LiveView.Run, LiveView.Rests, Display, Tells, Events;
    var s := LiveView.Run(actions);
    LiveView.RestIsUpToDate(actions);
    if s.ui.id in s.records {
      DisplayTells(s.ui.id, Events(s.log, s.ui.id, 0), s.records[s.ui.id]);
    }
  }
}
