/** The event log of a task, and the two presentations folded from it. */
module ChatLog {

  /**
   One committed event. `decoded` is what the text of a structured event decodes to, already
   put into words, or nothing when it does not decode.
   */
  datatype Event = Event(sequence: nat, task: string, kind: string, text: string, decoded: Decoded)

  datatype Decoded = Undecoded | Words(text: string)

  datatype Message = Message(kind: string, text: string)

  datatype Entry = Hidden | Shown(message: Message)

  const MARK := "\n\n[发送时"
  const ASK := "需要确认具体操作，请点击“待确认操作”。"

  /** The part of a text before the first occurrence of a mark. */
  function Before(text: string, mark: string): string {
    if text == "" || mark <= text then "" else [text[0]] + Before(text[1..], mark)
  }

  predicate MarkAt(text: string, i: int, mark: string) { 0 <= i <= |text| && mark <= text[i..] }

  lemma {:induction false} BeforeIsUpToFirst(text: string, mark: string)
    ensures var s := Before(text, mark);
            && s <= text && (s == text || MarkAt(text, |s|, mark))
            && forall i | 0 <= i < |s| :: !MarkAt(text, i, mark)
  {
    var s := Before(text, mark);
    if text != "" && !(mark <= text) {
      BeforeIsUpToFirst(text[1..], mark);
      forall i | 0 < i <= |text|
        ensures MarkAt(text, i, mark) <==> MarkAt(text[1..], i - 1, mark)
      {
        assert text[i..] == text[1..][i - 1..];
      }
      assert text[0..] == text;
      assert s[1..] <= text[1..];
    }
  }

  /** What one event adds to a conversation. */
  function EntryOf(e: Event): Entry {
    if e.kind == "user" then Shown(Message("user", Before(e.text, MARK)))
    else if e.kind == "assistant_delta" || e.kind == "assistant" then Shown(Message("assistant", e.text))
    else if e.kind == "execution_start" || e.kind == "execution_result" || e.kind == "tool_feedback" then
      Shown(Message("execution", e.text))
    else if e.kind == "verified" then Shown(Message("verified", e.text))
    else if e.kind == "plan_updated" then
      if e.decoded.Words? then Shown(Message("plan", e.decoded.text)) else Hidden
    else if e.kind == "subtask_state" then
      if e.decoded.Words? then Shown(Message("subtask", e.decoded.text)) else Hidden
    else if e.kind == "memory_state" then
      Shown(Message("memory", if e.decoded.Words? then e.decoded.text else e.text))
    else if e.kind == "approval_required" then Shown(Message("notice", ASK))
    else Hidden
  }

  predicate Merges(kind: string) { kind == "assistant" || kind == "execution" }

  function Separator(kind: string): string { if kind == "execution" then "\n" else "" }

  /** A message either continues the last one or stands by itself. */
  function Add(messages: seq<Message>, m: Message): seq<Message> {
    var n := |messages|;
    if n > 0 && messages[n - 1].kind == m.kind && Merges(m.kind) then
      messages[n - 1 := Message(m.kind, messages[n - 1].text + Separator(m.kind) + m.text)]
    else messages + [m]
  }

  function AppendChatEvent(messages: seq<Message>, e: Event): seq<Message> {
    match EntryOf(e)
    case Hidden => messages
    case Shown(m) => Add(messages, m)
  }

  function TaskEventText(e: Event): string {
    if e.kind == "assistant_delta" || e.kind == "assistant" || e.kind == "execution_delta" then e.text
    else if e.kind == "user" then "\n\n你：" + e.text + "\n\n"
    else if e.kind == "execution_start" then "\n\n执行：" + e.text + "\n"
    else if e.kind == "execution_result" then "\n" + e.text + "\n"
    else if e.kind == "verified" then "\n验证：" + e.text + "\n"
    else if e.kind == "approval_required" then "\n需要确认具体操作，请点击“待确认操作”。\n"
    else ""
  }

  // ------------------------------------------------------------------- folds

  function Messages(events: seq<Event>): seq<Message> {
    if events == [] then [] else AppendChatEvent(Messages(events[..|events| - 1]), events[|events| - 1])
  }

  function RunningText(events: seq<Event>): string {
    if events == [] then "" else RunningText(events[..|events| - 1]) + TaskEventText(events[|events| - 1])
  }

  function SettledText(events: seq<Event>): string {
    if events == [] then "" else
    var last := events[|events| - 1];
    SettledText(events[..|events| - 1]) + if last.kind == "execution_delta" then "" else TaskEventText(last)
  }

  /** The settled text is the running text of the events without the deltas of executions. */
  function WithoutDeltas(events: seq<Event>): seq<Event> {
    if events == [] then [] else
    var last := events[|events| - 1];
    WithoutDeltas(events[..|events| - 1]) + if last.kind == "execution_delta" then [] else [last]
  }

  lemma {:induction false} SettledIsRunningWithoutDeltas(events: seq<Event>)
    ensures SettledText(events) == RunningText(WithoutDeltas(events))
  {
    if events != [] {
      SettledIsRunningWithoutDeltas(events[..|events| - 1]);
      var rest := WithoutDeltas(events[..|events| - 1]);
      var last := events[|events| - 1];
      if last.kind != "execution_delta" {
        assert (rest + [last])[..|rest|] == rest;
      } else {
        assert rest + [] == rest;
      }
    }
  }

  // ------------------------------------------------ what merging keeps apart

  /** All the assistant has said, without breaks. */
  function Speech(messages: seq<Message>): string {
    if messages == [] then "" else
    var last := messages[|messages| - 1];
    Speech(messages[..|messages| - 1]) + if last.kind == "assistant" then last.text else ""
  }

  function SpeechOf(events: seq<Event>): string {
    if events == [] then "" else
    var last := events[|events| - 1];
    SpeechOf(events[..|events| - 1])
    + if last.kind == "assistant_delta" || last.kind == "assistant" then last.text else ""
  }

  /** No two neighbours are both of the assistant, or both of executions. */
  predicate Apart(messages: seq<Message>) {
    forall i | 0 < i < |messages| && messages[i - 1].kind == messages[i].kind ::
      messages[i].kind != "assistant" && messages[i].kind != "execution"
  }

  lemma AddSpeech(messages: seq<Message>, m: Message)
    requires Apart(messages)
    ensures Apart(Add(messages, m))
    ensures Speech(Add(messages, m)) == Speech(messages) + if m.kind == "assistant" then m.text else ""
  {
    var n := |messages|;
    var out := Add(messages, m);
    if |out| == n {
      assert out[..n - 1] == messages[..n - 1];
      assert messages[n - 1].text + "" + m.text == messages[n - 1].text + m.text;
    } else {
      assert out[..n] == messages;
    }
  }

  /** Merging loses no word of the assistant, keeps the order, and leaves nothing more to merge. */
  lemma {:induction false} MessagesKeepSpeech(events: seq<Event>)
    ensures Apart(Messages(events)) && Speech(Messages(events)) == SpeechOf(events)
  {
    if events != [] {
      var earlier := events[..|events| - 1];
      MessagesKeepSpeech(earlier);
      match EntryOf(events[|events| - 1])
      case Hidden =>
      case Shown(m) => AddSpeech(Messages(earlier), m);
    }
  }
}
