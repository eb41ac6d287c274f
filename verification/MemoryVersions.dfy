/** Notes of a scope, the generations that end a reader's right to them, and their versions. */
module MemoryVersions {

  /** One note; its digest is injective, so the note stands for it. */
  datatype Doc = Doc(path: string, content: string, updatedAt: int)

  datatype Settings = Settings(disabled: bool, generation: nat)

  datatype Store = Store(settings: map<string, Settings>, docs: map<(string, string), Doc>)

  datatype Backend = Backend(scope: string, generation: nat, globalGeneration: nat, revisions: map<string, Doc>)

  /** Generations are 64 bits wide. */
  const WRAP := 0x1_0000_0000_0000_0000
  const GLOBAL := "global"

  /** In bytes. */
  const LONGEST := 65536

  /** The length of the UTF-8 form of a text. */
  function Size(s: string): (n: nat)
    ensures |s| <= n <= 4 * |s|
  {
    if s == "" then 0 else
    var c := s[0] as int;
    (if c < 0x80 then 1 else if c < 0x800 then 2 else if c < 0x10000 then 3 else 4) + Size(s[1..])
  }

  function SettingsOf(s: Store, scope: string): Settings {
    if scope in s.settings then s.settings[scope] else Settings(false, 0)
  }

  function Next(generation: nat): nat { (generation + 1) % WRAP }

  function Toggled(s: Store, enabled: bool): Store {
    s.(settings := s.settings[GLOBAL := Settings(!enabled, Next(SettingsOf(s, GLOBAL).generation))])
  }

  function Deleted(s: Store, scope: string, key: string): Store {
    var v := SettingsOf(s, scope);
    Store(s.settings[scope := v.(generation := Next(v.generation))], s.docs - {(scope, key)})
  }

  function Opened(s: Store, scope: string): Backend {
    Backend(scope, SettingsOf(s, scope).generation, SettingsOf(s, GLOBAL).generation, map[])
  }

  predicate Usable(s: Store, b: Backend) {
    && !SettingsOf(s, GLOBAL).disabled
    && SettingsOf(s, GLOBAL).generation == b.globalGeneration && SettingsOf(s, b.scope).generation == b.generation
  }

  // -------------------------------------------------------- text replacement

  predicate OccursAt(s: string, part: string, i: int) { 0 <= i <= |s| - |part| && part <= s[i..] }

  /** Position of the first occurrence, or -1. */
  function Index(s: string, part: string): (i: int)
    ensures i == -1 || OccursAt(s, part, i)
    ensures forall j | OccursAt(s, part, j) :: 0 <= i <= j
  {
    if part <= s then 0 else if s == "" then -1 else
    var i := Index(s[1..], part);
    assert forall j | OccursAt(s, part, j) :: j > 0 && s[j..] == s[1..][j - 1..] && OccursAt(s[1..], part, j - 1);
    if i < 0 then -1 else
      assert s[1..][i..] == s[i + 1..];
      i + 1
  }

  /** Occurrences that do not overlap. */
  function Count(s: string, part: string): nat
    requires part != ""
  {
    var i := Index(s, part);
    if i < 0 then 0 else 1 + Count(s[i + |part|..], part)
  }

  /** The first `n` occurrences replaced, or all of them when `n` is negative. */
  function Replace(s: string, part: string, other: string, n: int): string
    requires part != ""
    decreases |s|
  {
    var i := Index(s, part);
    if n == 0 || i < 0 then s else s[..i] + other + Replace(s[i + |part|..], part, other, n - 1)
  }

  /** Where a part occurs once, but for occurrences that overlap with it. */
  ghost predicate OccursOnce(s: string, part: string) {
    exists i :: OccursAt(s, part, i) && forall j | OccursAt(s, part, j) :: i <= j < i + |part|
  }

  /** An occurrence behind a position is one of the rest. */
  lemma OccursLater(s: string, part: string, n: nat, j: int)
    requires n <= |s|
    ensures OccursAt(s[n..], part, j) <==> n <= j + n && OccursAt(s, part, j + n)
  {
    if 0 <= j <= |s| - n {
      assert s[n..][j..] == s[j + n..];
    }
  }

  lemma CountMeans(s: string, part: string)
    requires part != ""
    ensures var i := Index(s, part); Count(s, part) == 1 <==> i >= 0 && Index(s[i + |part|..], part) < 0
  {
    hide Index, OccursAt;
    var i := Index(s, part);
    if i >= 0 {
      InsideText(s, part, i);
      assert Count(s, part) == 1 + Count(s[i + |part|..], part);
    }
  }

  lemma InsideText(s: string, part: string, i: int)
    requires OccursAt(s, part, i)
    ensures 0 <= i && i + |part| <= |s|
  {
  }

  lemma NoneLater(s: string, part: string, n: nat)
    requires n <= |s|
    ensures Index(s[n..], part) < 0 <==> forall j | OccursAt(s, part, j) :: j < n
  {
    hide Index, OccursAt;
    var k := Index(s[n..], part);
    if k >= 0 {
      OccursLater(s, part, n, k);
    } else {
      forall j | OccursAt(s, part, j)
        ensures j < n
      {
        OccursLater(s, part, n, j - n);
      }
    }
  }

  /** The count is one exactly if nothing else occurs that does not overlap with the first. */
  lemma CountIsOne(s: string, part: string)
    requires part != ""
    ensures Count(s, part) == 1 <==> OccursOnce(s, part)
  {
    hide Index, OccursAt, Count;
    CountMeans(s, part);
    var i := Index(s, part);
    if i >= 0 {
      InsideText(s, part, i);
      NoneLater(s, part, i + |part|);
      if OccursOnce(s, part) {
        var m :| OccursAt(s, part, m) && forall j | OccursAt(s, part, j) :: m <= j < m + |part|;
        assert m == i;
      }
    }
  }

  /** With one occurrence it does not matter whether one or all are asked for. */
  lemma OnlyOccurrence(s: string, part: string, other: string)
    requires part != "" && Count(s, part) == 1
    ensures var i := Index(s, part);
            && 0 <= i <= |s| - |part| && s == s[..i] + part + s[i + |part|..]
            && Replace(s, part, other, 1) == Replace(s, part, other, -1) == s[..i] + other + s[i + |part|..]
  {
    hide Index, Replace;
    var i := Index(s, part);
    var rest := s[i + |part|..];
    Around(s, part, i);
    ReplaceFirst(s, part, other, 1);
    ReplaceFirst(s, part, other, -1);
    ReplaceFirst(rest, part, other, 0);
    ReplaceFirst(rest, part, other, -2);
  }

  lemma ReplaceFirst(s: string, part: string, other: string, n: int)
    requires part != ""
    ensures var i := Index(s, part);
            Replace(s, part, other, n) == if n == 0 || i < 0 then s
                                          else s[..i] + other + Replace(s[i + |part|..], part, other, n - 1)
  {
    hide Index;
  }

  lemma Around(s: string, part: string, i: nat)
    requires i + |part| <= |s| && part <= s[i..]
    ensures s == s[..i] + part + s[i + |part|..]
  {
    assert s[i..] == part + s[i..][|part|..];
  }

  // ---------------------------------------------------------------- documents

  predicate MayStore(s: Store, b: Backend, content: string, secret: bool) {
    Usable(s, b) && Size(content) <= LONGEST && !secret
  }

  /** An existing note may only be replaced by one who holds just this version of it. */
  predicate MayWrite(s: Store, b: Backend, key: string, content: string, secret: bool) {
    && ((b.scope, key) in s.docs ==> key in b.revisions && b.revisions[key] == s.docs[(b.scope, key)])
    && MayStore(s, b, content, secret)
  }

  predicate MayRead(s: Store, b: Backend, key: string) { Usable(s, b) && (b.scope, key) in s.docs }

  predicate MayEdit(s: Store, b: Backend, key: string, part: string, other: string, all: bool, secret: bool) {
    && MayRead(s, b, key) && part != ""
    && var content := s.docs[(b.scope, key)].content;
       && Count(content, part) > 0 && (all || Count(content, part) == 1)
       && MayStore(s, b, Replace(content, part, other, if all then -1 else 1), secret)
  }

  function Put(s: Store, b: Backend, key: string, content: string, now: int): Store {
    s.(docs := s.docs[(b.scope, key) := Doc(key, content, now)])
  }

  function Holding(b: Backend, key: string, doc: Doc): Backend { b.(revisions := b.revisions[key := doc]) }

  // ------------------------------------------------------------------ history

  datatype World = World(store: Store, backends: map<nat, Backend>)

  /** `secret` says that the new content was taken for a credential. */
  datatype Action =
    | Toggle(enabled: bool)
    | Delete(scope: string, key: string)
    | Open(b: nat, scope: string)
    | Read(b: nat, key: string)
    | Write(b: nat, key: string, content: string, secret: bool, now: int)
    | Edit(b: nat, key: string, part: string, other: string, all: bool, secret: bool, now: int)

  predicate Succeeds(w: World, a: Action) {
    match a
    case Toggle(_) => true
    case Delete(_, _) => true
    case Open(b, _) => b !in w.backends
    case Read(b, key) => b in w.backends && MayRead(w.store, w.backends[b], key)
    case Write(b, key, content, secret, _) => b in w.backends && MayWrite(w.store, w.backends[b], key, content, secret)
    case Edit(b, key, part, other, all, secret, _) =>
      b in w.backends && MayEdit(w.store, w.backends[b], key, part, other, all, secret)
  }

  /** What a backend writes back and now holds. */
  function Kept(w: World, b: nat, key: string, content: string, now: int): World
    requires b in w.backends
  {
    World(Put(w.store, w.backends[b], key, content, now),
          w.backends[b := Holding(w.backends[b], key, Doc(key, content, now))])
  }

  /** A call that does not succeed changes nothing. */
  function Step(w: World, a: Action): World {
    if !Succeeds(w, a) then w else
    match a
    case Toggle(enabled) => w.(store := Toggled(w.store, enabled))
    case Delete(scope, key) => w.(store := Deleted(w.store, scope, key))
    case Open(b, scope) => w.(backends := w.backends[b := Opened(w.store, scope)])
    case Read(b, key) =>
      w.(backends := w.backends[b := Holding(w.backends[b], key, w.store.docs[(w.backends[b].scope, key)])])
    case Write(b, key, content, _, now) => Kept(w, b, key, content, now)
    case Edit(b, key, part, other, all, _, now) =>
      Kept(w, b, key,
           Replace(w.store.docs[(w.backends[b].scope, key)].content, part, other, if all then -1 else 1), now)
  }

  function After(actions: seq<Action>): World {
    if actions == [] then World(Store(map[], map[]), map[])
    else Step(After(actions[..|actions| - 1]), actions[|actions| - 1])
  }

  // -------------------------------------------------------------- generations

  predicate Bumps(a: Action, scope: string) {
    (a.Toggle? && scope == GLOBAL) || (a.Delete? && a.scope == scope)
  }

  /** How often the settings of a scope were changed. */
  function Changes(actions: seq<Action>, scope: string): nat {
    if actions == [] then 0
    else Changes(actions[..|actions| - 1], scope) + if Bumps(actions[|actions| - 1], scope) then 1 else 0
  }

  lemma {:induction false} ChangesAdd(actions: seq<Action>, n: nat, scope: string)
    requires n <= |actions|
    ensures Changes(actions, scope) == Changes(actions[..n], scope) + Changes(actions[n..], scope)
    decreases |actions|
  {
    if n == |actions| {
      assert actions[..n] == actions;
    } else {
      var m := |actions| - 1;
      ChangesAdd(actions[..m], n, scope);
      assert actions[..m][..n] == actions[..n] && actions[n..][..m - n] == actions[..m][n..];
    }
  }

  lemma NextMod(n: nat)
    ensures Next(n % WRAP) == (n + 1) % WRAP
  {
  }

  lemma {:induction false} GenerationIs(actions: seq<Action>, scope: string)
    ensures SettingsOf(After(actions).store, scope).generation == Changes(actions, scope) % WRAP
  {
    hide MayRead, MayWrite, MayEdit, Replace, Next;
    if actions != [] {
      var earlier := actions[..|actions| - 1];
      GenerationIs(earlier, scope);
      NextMod(Changes(earlier, scope));
    }
  }

  /** A backend keeps its scope and the generations it was opened with. */
  lemma {:induction false} BackendKept(actions: seq<Action>, n: nat, b: nat)
    requires n <= |actions| && b in After(actions[..n]).backends
    ensures b in After(actions).backends
    ensures After(actions).backends[b].(revisions := map[]) == After(actions[..n]).backends[b].(revisions := map[])
    decreases |actions|
  {
    hide MayRead, MayWrite, MayEdit, Replace, Put, Toggled, Deleted;
    if n == |actions| {
      assert actions[..n] == actions;
    } else {
      var m := |actions| - 1;
      assert actions[..m][..n] == actions[..n];
      BackendKept(actions[..m], n, b);
    }
  }

  lemma SameResidue(a: nat, d: nat)
    ensures (a + d) % WRAP == a % WRAP <==> d % WRAP == 0
  {
  }

  /**
   A backend can be used exactly while memory is enabled and, since it was opened, both the
   global settings and those of its scope were changed a multiple of 2^64 times.
   */
  lemma BackendExpires(actions: seq<Action>, n: nat, b: nat, scope: string)
    requires n < |actions| && actions[n] == Open(b, scope) && b !in After(actions[..n]).backends
    ensures b in After(actions).backends && After(actions).backends[b].scope == scope
    ensures var since := actions[n + 1..];
            Usable(After(actions).store, After(actions).backends[b]) <==>
              && !SettingsOf(After(actions).store, "global").disabled
              && Changes(since, "global") % 0x1_0000_0000_0000_0000 == 0
              && Changes(since, scope) % 0x1_0000_0000_0000_0000 == 0
  {
    hide After, Changes;
    OpenedAt(actions, n, b, scope);
    BackendKept(actions, n + 1, b);
    GenerationIs(actions[..n], scope);
    GenerationIs(actions[..n], GLOBAL);
    GenerationIs(actions, scope);
    GenerationIs(actions, GLOBAL);
    SinceOpened(actions, n, scope);
    SinceOpened(actions, n, GLOBAL);
    SameResidue(Changes(actions[..n], scope), Changes(actions[n + 1..], scope));
    SameResidue(Changes(actions[..n], GLOBAL), Changes(actions[n + 1..], GLOBAL));
  }

  lemma OpenedAt(actions: seq<Action>, n: nat, b: nat, scope: string)
    requires n < |actions| && actions[n] == Open(b, scope) && b !in After(actions[..n]).backends
    ensures b in After(actions[..n + 1]).backends
    ensures After(actions[..n + 1]).backends[b] == Opened(After(actions[..n]).store, scope)
  {
    assert actions[..n + 1][..n] == actions[..n];
  }

  lemma SinceOpened(actions: seq<Action>, n: nat, scope: string)
    requires n < |actions| && actions[n].Open?
    ensures Changes(actions, scope) == Changes(actions[..n], scope) + Changes(actions[n + 1..], scope)
  {
    ChangesAdd(actions, n + 1, scope);
    assert actions[..n + 1][..n] == actions[..n];
  }

  /** Short of 2^64 changes, one is enough: nothing the backend does touches the notes any more. */
  lemma ExpiredCannotWrite(actions: seq<Action>, n: nat, b: nat, scope: string, a: Action)
    requires n < |actions| && actions[n] == Open(b, scope) && b !in After(actions[..n]).backends
    requires 0 < Changes(actions[n + 1..], scope) < 0x1_0000_0000_0000_0000
             || 0 < Changes(actions[n + 1..], "global") < 0x1_0000_0000_0000_0000
    requires (a.Write? || a.Edit? || a.Read?) && a.b == b
    ensures !Succeeds(After(actions), a) && Step(After(actions), a) == After(actions)
  {
    hide After, Changes, Usable, Replace, Count;
    BackendExpires(actions, n, b, scope);
  }

  // ------------------------------------------------------------------ versions

  datatype Version = Unseen | Seen(doc: Doc)

  /** The version of a note that a backend read or wrote last, looked up in the store of that moment. */
  function LastSeen(actions: seq<Action>, b: nat, key: string): Version {
    if actions == [] then Unseen else
    var n := |actions| - 1;
    var a := actions[n];
    var w := After(actions[..n]);
    if Succeeds(w, a) && (a.Read? || a.Write? || a.Edit?) && a.b == b && a.key == key then
      var docs := After(actions).store.docs;
      var scope := w.backends[b].scope;
      if (scope, key) in docs then Seen(docs[(scope, key)]) else Unseen
    else LastSeen(actions[..n], b, key)
  }

  lemma {:induction false} UnseenBefore(actions: seq<Action>, b: nat, key: string)
    requires b !in After(actions).backends
    ensures LastSeen(actions, b, key) == Unseen
  {
    hide MayRead, MayWrite, MayEdit, Replace, Put, Toggled, Deleted;
    if actions != [] {
      UnseenBefore(actions[..|actions| - 1], b, key);
    }
  }

  lemma {:induction false} RevisionsAreSeen(actions: seq<Action>, b: nat, key: string)
    requires b in After(actions).backends
    ensures var r := After(actions).backends[b].revisions;
            LastSeen(actions, b, key) == if key in r then Seen(r[key]) else Unseen
  {
    hide MayWrite, MayEdit, Replace, Toggled, Deleted, Opened;
    var n := |actions| - 1;
    var w := After(actions[..n]);
    if b in w.backends {
      RevisionsAreSeen(actions[..n], b, key);
    } else {
      UnseenBefore(actions[..n], b, key);
      FreshHolds(w.store, actions[n]);
    }
  }

  lemma FreshHolds(s: Store, a: Action)
    ensures a.Open? ==> Opened(s, a.scope).revisions == map[]
  {
  }

  /** A write over an existing note replaces just the version its writer read or wrote last. */
  lemma WriteReplacesSeen(actions: seq<Action>, b: nat, key: string, content: string, secret: bool, now: int)
    requires Succeeds(After(actions), Write(b, key, content, secret, now))
    ensures var w := After(actions);
            var scope := w.backends[b].scope;
            && ((scope, key) in w.store.docs ==> LastSeen(actions, b, key) == Seen(w.store.docs[(scope, key)]))
            && Step(w, Write(b, key, content, secret, now)).store
               == w.store.(docs := w.store.docs[(scope, key) := Doc(key, content, now)])
  {
    hide After, LastSeen, MayStore;
    RevisionsAreSeen(actions, b, key);
  }
}
