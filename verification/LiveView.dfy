/**
 Writers that commit and then notify, a one-slot channel, a frame timer and a reader that
 loads in two parts, in every interleaving.
 */
module LiveView {
  import opened ChatLog
  import opened TaskHistory

  datatype Selection = Selection(id: string, revision: nat)

  datatype Mailbox = Empty | Holds(selection: Selection)

  datatype Subscription = Nobody | To(task: string)

  datatype Screen = Blank | Shows(update: Update)

  datatype Phase =
    | Idle                          // waiting for something to happen
    | Switching                     // no subscription
    | Loading                       // nothing read yet
    | Recorded(record: Record)      // the task is read, its events are not
    | Delivering(update: Update)    // on its way to the screen

  /** `failed` says how the latest load ended. */
  datatype State = State(
    log: seq<Event>, records: map<string, Record>, inFlight: multiset<string>,
    subscription: Subscription, slot: bool,
    ui: Selection, mailbox: Mailbox, screen: Screen,
    selected: Selection, frame: bool, history: History, phase: Phase, failed: bool)

  const QUIET := State([], map[], multiset{}, Nobody, false, Selection("", 0), Empty, Blank,
                       Selection("", 0), false, New(""), Idle, false)

  datatype Action =
    | CommitEvent(task: string, kind: string, text: string, decoded: Decoded)
    | CommitRecord(task: string, record: Record)
    | Notify(task: string)
    | Choose(id: string)
    | TakeRequest
    | Subscribe
    | Wake
    | Fire
    | ReadRecord
    | ReadEvents
    | Deliver
    | Fail

  predicate Enabled(s: State, a: Action) {
    match a
    case CommitEvent(_, _, _, _) => true
    case CommitRecord(_, _) => true
    case Notify(task) => task in s.inFlight
    case Choose(_) => true
    case TakeRequest => s.phase.Idle? && s.mailbox.Holds?
    case Subscribe => s.phase.Switching?
    case Wake => s.phase.Idle? && s.slot
    case Fire => s.phase.Idle? && s.frame
    case ReadRecord => s.phase.Loading? && s.selected.id in s.records
    case ReadEvents => s.phase.Recorded?
    case Deliver => s.phase.Delivering?
    case Fail => s.phase.Loading? || s.phase.Recorded?
  }

  /** The start of a load, or nothing to load. */
  function Start(s: State): State {
    if s.selected.id == "" then s.(phase := Idle, history := New(""), failed := false)
    else s.(phase := Loading, failed := false)
  }

  function Apply(s: State, a: Action): State
    requires Enabled(s, a)
  {
    match a
    case CommitEvent(task, kind, text, decoded) =>
      s.(log := s.log + [Event(|s.log| + 1, task, kind, text, decoded)], inFlight := s.inFlight + multiset{task})
    case CommitRecord(task, record) =>
      s.(records := s.records[task := record], inFlight := s.inFlight + multiset{task})
    case Notify(task) =>
      s.(inFlight := s.inFlight - multiset{task}, slot := s.slot || s.subscription == To(task))
    case Choose(id) =>
      var selection := Selection(id, s.ui.revision + 1);
      s.(ui := selection, mailbox := Holds(selection), screen := if s.ui.id == id then s.screen else Blank)
    case TakeRequest =>
      s.(selected := s.mailbox.selection, mailbox := Empty, subscription := Nobody, slot := false, frame := false,
         phase := Switching)
    case Subscribe =>
      Start(s.(subscription := if s.selected.id == "" then Nobody else To(s.selected.id), slot := false,
               history := s.history.(loaded := false)))
    case Wake => s.(slot := false, frame := true)
    case Fire => Start(s.(frame := false))
    case ReadRecord => s.(history := For(s.history, s.selected.id), phase := Recorded(s.records[s.selected.id]))
    case ReadEvents =>
      var id, record := s.selected.id, s.phase.record;
      var h := Read(s.history, id, record, s.log);
      s.(history := h,
         phase := if Changes(s.history, id, record, s.log) then Delivering(Display(id, h.seen, record)) else Idle)
    case Deliver =>
      s.(screen := if s.ui == s.selected then Shows(s.phase.update) else s.screen, phase := Idle)
    case Fail => s.(history := For(s.history, s.selected.id), phase := Idle, failed := true)
  }

  // -------------------------------------------------------------- invariants

  /** Something of the selected task is committed that the reader does not hold. */
  predicate Unread(s: State) {
    var id := s.selected.id;
    id != "" && !(s.history.id == id && s.history.loaded && s.history.seen == Events(s.log, id, 0)
                  && id in s.records && s.history.record == s.records[id])
  }

  /** A load is about to run, or has so far read what there is. */
  predicate AboutToRead(s: State) {
    s.phase.Switching? || s.phase.Loading?
    || (s.phase.Recorded? && s.selected.id in s.records && s.phase.record == s.records[s.selected.id])
  }

  predicate Woken(s: State) {
    s.selected.id in s.inFlight || s.slot || s.frame || s.mailbox.Holds? || AboutToRead(s)
  }

  /** A task that was read is still as it was, or a wake-up is due that is not the load's own. */
  predicate Fresh(s: State) {
    s.phase.Recorded? && !AboutToRead(s) ==> s.selected.id in s.inFlight || s.slot || s.mailbox.Holds?
  }

  predicate Wired(s: State) {
    && (s.phase.Switching? ==> s.subscription.Nobody? && !s.slot)
    && (!s.phase.Switching? && s.selected.id != "" ==> s.subscription == To(s.selected.id))
    && (s.selected.id == "" ==> s.phase.Idle? || s.phase.Switching?)
    && (!s.phase.Idle? ==> !s.frame)
    && (s.phase.Recorded? || s.phase.Delivering? ==> s.history.id == s.selected.id)
    && (match s.mailbox case Empty => s.selected == s.ui case Holds(x) => x == s.ui && s.selected.revision < s.ui.revision)
  }

  /** What is on the screen is what the reader holds, or it is on its way there. */
  predicate ScreenOk(s: State) {
    var id := s.selected.id;
    s.selected == s.ui && id != "" && s.history.id == id && s.history.loaded && !s.phase.Switching? ==>
      var u := Display(id, s.history.seen, s.history.record);
      if s.phase.Delivering? then s.phase.update == u else s.screen == Shows(u)
  }

  ghost predicate LogOk(s: State) {
    && (forall i | 0 <= i < |s.log| :: s.log[i].sequence == i + 1)
    && Reflects(s.history, s.log)
  }

  ghost predicate Inv(s: State) {
    LogOk(s) && Wired(s) && ScreenOk(s) && Fresh(s) && (Unread(s) && !s.failed ==> Woken(s))
  }

  // ------------------------------------------------------------------ proofs

  lemma LogStep(s: State, a: Action)
    requires LogOk(s) && Enabled(s, a)
    ensures LogOk(Apply(s, a))
  {
    hide Display, Changes, Events;
    match a
    case CommitEvent(task, kind, text, decoded) =>
      ReflectsLater(s.history, s.log, Event(|s.log| + 1, task, kind, text, decoded));
    case ReadEvents => ReadIsWhole(s.history, s.selected.id, s.phase.record, s.log);
    case Fire => FreshReflects("", s.log);
    case Subscribe => FreshReflects("", s.log); NotLoadedReflects(s.history, s.log);
    case ReadRecord => FreshReflects(s.selected.id, s.log);
    case Fail => FreshReflects(s.selected.id, s.log);
    case _ =>
  }

  lemma FreshReflects(id: string, log: seq<Event>)
    ensures Reflects(New(id), log)
  {
    assert Events(log[..0], id, 0) == [];
  }

  lemma NotLoadedReflects(h: History, log: seq<Event>)
    requires Reflects(h, log)
    ensures Reflects(h.(loaded := false), log)
  {
    var n :| 0 <= n <= |log| && h.seen == Events(log[..n], h.id, 0);
  }

  lemma WiredStep(s: State, a: Action)
    requires Wired(s) && Enabled(s, a)
    ensures Wired(Apply(s, a))
  {
    hide Display, Changes, Events;
  }

  lemma ScreenStep(s: State, a: Action)
    requires Wired(s) && ScreenOk(s) && Enabled(s, a)
    ensures ScreenOk(Apply(s, a))
  {
    hide Display, Changes, Events;
    if a.ReadEvents? {
      ReadScreen(s);
    }
  }

  lemma ReadScreen(s: State)
    requires Wired(s) && ScreenOk(s) && Enabled(s, ReadEvents)
    ensures ScreenOk(Apply(s, ReadEvents))
  {
    hide Display, Events;
    if !Changes(s.history, s.selected.id, s.phase.record, s.log) {
      UnchangedIsSame(s.history, s.selected.id, s.phase.record, s.log);
    }
  }

  lemma WakeStep(s: State, a: Action)
    requires LogOk(s) && Wired(s) && Fresh(s) && Enabled(s, a) && (Unread(s) && !s.failed ==> Woken(s))
    ensures var t := Apply(s, a); Fresh(t) && (Unread(t) && !t.failed ==> Woken(t))
  {
    hide Display, Changes;
    match a
    case CommitEvent(task, kind, text, decoded) =>
      var e := Event(|s.log| + 1, task, kind, text, decoded);
      assert (s.log + [e])[..|s.log|] == s.log;
      assert Events(s.log, s.selected.id, 0) + [] == Events(s.log, s.selected.id, 0);
    case ReadEvents => ReadIsWhole(s.history, s.selected.id, s.phase.record, s.log);
    case _ =>
  }

  lemma InvStep(s: State, a: Action)
    requires Inv(s) && Enabled(s, a)
    ensures Inv(Apply(s, a))
  {
    hide LogOk, Wired, ScreenOk, Fresh, Unread, Woken, Apply, Enabled;
    LogStep(s, a);
    WiredStep(s, a);
    ScreenStep(s, a);
    WakeStep(s, a);
  }

  function Run(actions: seq<Action>): State {
    if actions == [] then QUIET else
    var s := Run(actions[..|actions| - 1]);
    var a := actions[|actions| - 1];
    if Enabled(s, a) then Apply(s, a) else s
  }

  lemma {:induction false} RunInv(actions: seq<Action>)
    ensures Inv(Run(actions))
  {
    hide Inv, Apply, Enabled;
    if actions == [] {
      QuietInv();
    } else {
      var s := Run(actions[..|actions| - 1]);
      RunInv(actions[..|actions| - 1]);
      if Enabled(s, actions[|actions| - 1]) {
        InvStep(s, actions[|actions| - 1]);
      }
    }
  }

  lemma QuietInv()
    ensures Inv(QUIET)
  {
    FreshReflects("", []);
  }

  /** In every interleaving, what is not read yet will wake the reader, if its latest load did not fail. */
  lemma NoLostWakeUp(actions: seq<Action>)
    ensures var s := Run(actions); Unread(s) && !s.failed ==> Woken(s)
  {
    hide Run, Unread, Woken;
    RunInv(actions);
  }

  // ------------------------------------------------------------- catching up

  /** The steps that are taken without anyone committing, choosing or failing. */
  predicate Driven(a: Action) { !a.CommitEvent? && !a.CommitRecord? && !a.Choose? && !a.Fail? }

  function PhaseWork(p: Phase): nat {
    match p
    case Idle => 0
    case Delivering(_) => 1
    case Recorded(_) => 2
    case Loading => 3
    case Switching => 4
  }

  function Work(s: State): nat {
    7 * |s.inFlight| + (if s.mailbox.Holds? then 5 else 0) + (if s.slot then 6 else 0) + (if s.frame then 5 else 0)
    + PhaseWork(s.phase)
  }

  /** Left to itself the reader comes to rest ... */
  lemma DrivenStepsEnd(s: State, a: Action)
    requires Enabled(s, a) && Driven(a)
    ensures Work(Apply(s, a)) < Work(s)
  {
    hide Display, Changes, Events;
    if a.Notify? {
      assert |s.inFlight - multiset{a.task}| == |s.inFlight| - 1;
    }
  }

  ghost predicate Rests(s: State) { forall a: Action | Driven(a) :: !Enabled(s, a) }

  /** ... and when it rests, the screen shows a fold over everything committed for the chosen task. */
  lemma RestIsUpToDate(actions: seq<Action>)
    requires Rests(Run(actions)) && !Run(actions).failed
    ensures var s := Run(actions);
            var id := s.ui.id;
            || (s.phase.Loading? && s.selected.id !in s.records)
            || (s.selected == s.ui
                && (id != "" ==> id in s.records && s.screen == Shows(Display(id, Events(s.log, id, 0), s.records[id]))))
  {
    hide Run, Display, Events, Changes;
    RunInv(actions);
    var s := Run(actions);
    assert !Enabled(s, TakeRequest) && !Enabled(s, Subscribe) && !Enabled(s, Wake) && !Enabled(s, Fire);
    assert !Enabled(s, ReadRecord) && !Enabled(s, ReadEvents) && !Enabled(s, Deliver);
    assert !Enabled(s, Notify(s.selected.id));
  }

  /** What is on the screen, or on its way there, is about the task that was chosen for it. */
  predicate OwnScreen(s: State) {
    && (s.screen.Shows? ==> s.screen.update.id == s.ui.id)
    && (s.phase.Delivering? ==> s.phase.update.id == s.selected.id)
  }

  lemma DisplaysIts(id: string, events: seq<Event>, record: Record)
    ensures Display(id, events, record).id == id
  {
  }

  lemma OwnScreenStep(s: State, a: Action)
    requires OwnScreen(s) && Enabled(s, a)
    ensures OwnScreen(Apply(s, a))
  {
    hide Display, Changes, Read, For, Events;
    if a.ReadEvents? {
      DisplaysIts(s.selected.id, Read(s.history, s.selected.id, s.phase.record, s.log).seen, s.phase.record);
    }
  }

  /** In every interleaving, at rest or not: the screen never shows another task than the one chosen last. */
  lemma {:induction false} ScreenIsOfTheChosen(actions: seq<Action>)
    ensures Run(actions).screen.Shows? ==> Run(actions).screen.update.id == Run(actions).ui.id
    ensures OwnScreen(Run(actions))
  {
    hide Enabled, Apply;
    if actions != [] {
      ScreenIsOfTheChosen(actions[..|actions| - 1]);
      var s := Run(actions[..|actions| - 1]);
      if Enabled(s, actions[|actions| - 1]) {
        OwnScreenStep(s, actions[|actions| - 1]);
      }
    }
  }

  // ------------------------------------------------------------ failed loads

  /** Something is unread, and nothing will make the reader look. */
  predicate Blind(s: State) { s.phase.Idle? && Unread(s) && !Woken(s) }

  /** A failed load leaves the reader blind exactly if no wake-up arrived while it was loading. */
  lemma FailureBlindsUnlessWoken(actions: seq<Action>)
    requires Enabled(Run(actions), Fail) && Unread(Run(actions))
    ensures var s := Run(actions);
            Blind(Apply(s, Fail)) <==> !s.slot && s.selected.id !in s.inFlight && s.mailbox.Empty?
  {
    hide Run, Display, Events, Changes;
    RunInv(actions);
  }

  /** From then on only a new commit for that task, or a new choice, can help. */
  lemma BlindnessStays(s: State, a: Action)
    requires Blind(s) && Enabled(s, a) && !a.Choose?
    requires a.CommitEvent? ==> a.task != s.selected.id
    requires a.CommitRecord? ==> a.task != s.selected.id
    requires s.selected.id != "" ==> s.subscription == To(s.selected.id)
    ensures var t := Apply(s, a);
            Blind(t) && t.history == s.history && t.screen == s.screen && t.selected == s.selected
            && t.subscription == s.subscription
  {
    hide Display, Changes;
    if a.CommitEvent? {
      var e := Event(|s.log| + 1, a.task, a.kind, a.text, a.decoded);
      assert (s.log + [e])[..|s.log|] == s.log;
      assert Events(s.log, s.selected.id, 0) + [] == Events(s.log, s.selected.id, 0);
    }
  }

  const STARTED := Record("running", "")

  lemma Committed()
    ensures Run([CommitRecord("t", STARTED), Notify("t")]) == QUIET.(records := map["t" := STARTED])
  {
    hide Run;
    RunStart();
    RunOn([], CommitRecord("t", STARTED));
    assert [] + [CommitRecord("t", STARTED)] == [CommitRecord("t", STARTED)];
    RunOn([CommitRecord("t", STARTED)], Notify("t"));
    assert [CommitRecord("t", STARTED)] + [Notify("t")] == [CommitRecord("t", STARTED), Notify("t")];
    assert multiset{} + multiset{"t"} - multiset{"t"} == multiset{};
  }

  lemma Chosen(before: seq<Action>)
    requires Run(before) == QUIET.(records := map["t" := STARTED])
    ensures var s := Run(before + [Choose("t"), TakeRequest]);
            s == QUIET.(records := map["t" := STARTED], ui := Selection("t", 1), selected := Selection("t", 1),
                        phase := Switching)
  {
    hide Run;
    RunOn(before, Choose("t"));
    RunOn(before + [Choose("t")], TakeRequest);
    assert before + [Choose("t")] + [TakeRequest] == before + [Choose("t"), TakeRequest];
  }

  lemma SubscribedAndFailed(before: seq<Action>)
    requires Run(before) == QUIET.(records := map["t" := STARTED], ui := Selection("t", 1), selected := Selection("t", 1),
                                   phase := Switching)
    ensures Blind(Run(before + [Subscribe, Fail]))
  {
    hide Run, Events;
    RunOn(before, Subscribe);
    RunOn(before + [Subscribe], Fail);
    assert before + [Subscribe] + [Fail] == before + [Subscribe, Fail];
  }

  /** It does happen: the first load of a chosen task fails after its only notification has passed. */
  lemma FailureCanBlind()
    ensures Blind(Run([CommitRecord("t", STARTED), Notify("t"), Choose("t"), TakeRequest, Subscribe, Fail]))
  {
    hide *;
    var committed := [CommitRecord("t", STARTED), Notify("t")];
    Committed();
    Chosen(committed);
    SubscribedAndFailed(committed + [Choose("t"), TakeRequest]);
    assert committed + [Choose("t"), TakeRequest] + [Subscribe, Fail]
           == [CommitRecord("t", STARTED), Notify("t"), Choose("t"), TakeRequest, Subscribe, Fail];
  }

  lemma RunStart()
    ensures Run([]) == QUIET
  {
  }

  lemma RunOn(actions: seq<Action>, a: Action)
    ensures Run(actions + [a]) == if Enabled(Run(actions), a) then Apply(Run(actions), a) else Run(actions)
  {
    hide Enabled, Apply;
    assert (actions + [a])[..|actions|] == actions;
  }
}
