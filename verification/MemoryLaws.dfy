/** What every history keeps of the notes, and what an edit of all places does. */
module MemoryLaws {
  import opened MemoryVersions
  import opened Utf8

  // --------------------------------------------------------------- replacement

  function Joined(pieces: seq<string>, between: string): string {
    if pieces == [] then "" else if |pieces| == 1 then pieces[0]
    else pieces[0] + between + Joined(pieces[1..], between)
  }

  /** A part that does not occur in a text, nor where the text meets the part behind it. */
  predicate Ends(piece: string, part: string) { Index(piece + part, part) == |piece| }

  ghost predicate Lacks(s: string, part: string) { forall j :: !OccursAt(s, part, j) }

  /** The text between the occurrences, each of them the first behind the one before. */
  ghost predicate Between(pieces: seq<string>, part: string) {
    && pieces != [] && (forall i | 0 <= i < |pieces| - 1 :: Ends(pieces[i], part))
    && Lacks(pieces[|pieces| - 1], part)
  }

  lemma FirstEnds(s: string, part: string)
    requires Index(s, part) >= 0
    ensures var i := Index(s, part); i + |part| <= |s| && part <= s[i..] && Ends(s[..i], part)
  {
    hide Index;
    var i := Index(s, part);
    Around(s, part, i);
    assert OccursAt(s[..i] + part, part, i) by {
      assert (s[..i] + part)[i..] == part;
    }
    forall j | OccursAt(s[..i] + part, part, j)
      ensures i <= j
    {
      assert s[j..] == (s[..i] + part)[j..] + s[i + |part|..];
      assert OccursAt(s, part, j);
    }
  }

  lemma JoinedFrom(first: string, pieces: seq<string>, between: string)
    requires pieces != []
    ensures Joined([first] + pieces, between) == first + between + Joined(pieces, between)
  {
    assert ([first] + pieces)[1..] == pieces;
  }

  /**
   An edit of all places: the text is cut at each occurrence from the left, there are as many as
   are counted, and the new part stands where the old one stood.
   */
  lemma {:induction false} ReplaceAllIs(s: string, part: string, other: string, n: int) returns (pieces: seq<string>)
    requires part != "" && n < 0
    ensures Between(pieces, part) && |pieces| == Count(s, part) + 1
    ensures s == Joined(pieces, part) && Replace(s, part, other, n) == Joined(pieces, other)
    decreases |s|
  {
    hide Index, OccursAt, Ends, Joined;
    var i := Index(s, part);
    ReplaceFirst(s, part, other, n);
    if i < 0 {
      pieces := [s];
      JoinedAlone(s, part);
      JoinedAlone(s, other);
    } else {
      FirstEnds(s, part);
      Around(s, part, i);
      var rest := ReplaceAllIs(s[i + |part|..], part, other, n - 1);
      pieces := [s[..i]] + rest;
      JoinedFrom(s[..i], rest, part);
      JoinedFrom(s[..i], rest, other);
      assert pieces[|pieces| - 1] == rest[|rest| - 1];
      assert forall k | 0 < k < |pieces| - 1 :: pieces[k] == rest[k - 1];
    }
  }

  lemma JoinedAlone(s: string, between: string)
    ensures Joined([s], between) == s
  {
  }

  /** When an edit succeeds: it is clear which places are meant, and the new text may be stored. */
  lemma EditSucceeds(s: Store, b: Backend, key: string, part: string, other: string, all: bool, secret: bool)
    ensures MayEdit(s, b, key, part, other, all, secret) <==>
              && Usable(s, b) && (b.scope, key) in s.docs && part != "" && !secret
              && var content := s.docs[(b.scope, key)].content;
                 && (if all then exists i :: OccursAt(content, part, i) else OccursOnce(content, part))
                 && Size(Replace(content, part, other, if all then -1 else 1)) <= 65536
  {
    hide Usable, Count, OccursOnce, OccursAt, Index, Replace;
    if (b.scope, key) in s.docs && part != "" {
      var content := s.docs[(b.scope, key)].content;
      CountIsOne(content, part);
      CountIsSome(content, part);
    }
  }

  lemma CountIsSome(s: string, part: string)
    requires part != ""
    ensures Count(s, part) > 0 <==> exists i :: OccursAt(s, part, i)
  {
    hide OccursAt, Index;
    if Index(s, part) >= 0 {
      assert OccursAt(s, part, Index(s, part));
    }
  }

  // ---------------------------------------------------------------- every note

  /** The size of a text is that of its encoding. */
  function Scalars(s: string): (cs: seq<nat>)
    ensures AreScalars(cs)
  {
    if s == "" then [] else [s[0] as int] + Scalars(s[1..])
  }

  lemma {:induction false} SizeIs(s: string)
    ensures Size(s) == |Encode(Scalars(s))|
  {
    if s != "" {
      SizeIs(s[1..]);
      assert Scalars(s)[1..] == Scalars(s[1..]);
    }
  }

  lemma {:induction false} NotesAreSmall(actions: seq<Action>, scope: string, key: string)
    requires (scope, key) in After(actions).store.docs
    ensures var doc := After(actions).store.docs[(scope, key)];
            doc.path == key && |Encode(Scalars(doc.content))| <= 65536
  {
    hide Usable, Count, Replace, Size, Scalars, Encode;
    var before := actions[..|actions| - 1];
    SizeIs(After(actions).store.docs[(scope, key)].content);
    if (scope, key) in After(before).store.docs {
      NotesAreSmall(before, scope, key);
    }
  }

  /** A step touches a note only if it is deleted by name, or a backend of its scope writes or edits it. */
  lemma OthersStay(w: World, a: Action, scope: string, key: string)
    requires !(a == Delete(scope, key))
    requires (a.Write? || a.Edit?) && a.key == key ==> a.b !in w.backends || w.backends[a.b].scope != scope
    ensures (scope, key) in w.store.docs <==> (scope, key) in Step(w, a).store.docs
    ensures (scope, key) in w.store.docs ==> Step(w, a).store.docs[(scope, key)] == w.store.docs[(scope, key)]
  {
    hide MayRead, MayWrite, MayEdit, Replace, Opened;
  }

  /** What is deleted is gone, and what was taken for a credential is never stored. */
  lemma DeletedAndRefused(w: World, a: Action)
    ensures a.Delete? ==> (a.scope, a.key) !in Step(w, a).store.docs
    ensures (a.Write? || a.Edit?) && a.secret ==> Step(w, a) == w
  {
    hide MayRead, Replace, Usable, Count, Opened;
  }

  /** A write succeeds exactly over nothing, or over the version its writer read or wrote last. */
  lemma WriteSucceeds(actions: seq<Action>, b: nat, key: string, content: string, secret: bool, now: int)
    requires b in After(actions).backends
    ensures var w := After(actions);
            var note := (w.backends[b].scope, key);
            Succeeds(w, Write(b, key, content, secret, now)) <==>
              && Usable(w.store, w.backends[b]) && |Encode(Scalars(content))| <= 65536 && !secret
              && (note in w.store.docs ==> LastSeen(actions, b, key) == Seen(w.store.docs[note]))
  {
    hide After, LastSeen, Usable, Size, Encode, Scalars;
    RevisionsAreSeen(actions, b, key);
    SizeIs(content);
  }

  /** Memory is disabled exactly if it was switched, and last of all off. */
  lemma {:induction false} LastSwitchCounts(actions: seq<Action>, i: int)
    requires -1 <= i < |actions| && (i >= 0 ==> actions[i].Toggle?)
    requires forall j | i < j < |actions| :: !actions[j].Toggle?
    ensures SettingsOf(After(actions).store, "global").disabled <==> i >= 0 && !actions[i].enabled
    decreases |actions|
  {
    hide MayRead, MayWrite, MayEdit, Replace, Opened;
    if i < |actions| - 1 {
      LastSwitchCounts(actions[..|actions| - 1], i);
    }
  }
}
