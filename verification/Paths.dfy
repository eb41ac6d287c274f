/** Slash-separated paths, as far as authorisation looks at them. */
module Paths {

  /** The pieces between slashes. */
  function Split(p: string): (c: seq<string>)
    ensures c != []
  {
    if p == [] then [""] else
    var rest := Split(p[1..]);
    if p[0] == '/' then [""] + rest else [[p[0]] + rest[0]] + rest[1..]
  }

  predicate Plain(c: string) { c != "" && c != "." && c != ".." }

  /** The components of a path that is absolute and already clean. */
  function Components(p: string): seq<string>
    requires Clean(p)
  {
    if p == "/" then [] else Split(p)[1..]
  }

  /** An absolute path that cleaning leaves as it is. */
  predicate Clean(p: string) {
    p != "" && p[0] == '/' && (p == "/" || forall i | 1 <= i < |Split(p)| :: Plain(Split(p)[i]))
  }

  predicate Valid(p: string) { '\0' !in p && Clean(p) }

  /** The way from one place to another: up out of what is not common, then down. */
  function Relative(root: seq<string>, p: seq<string>): seq<string> {
    if root != [] && p != [] && root[0] == p[0] then Relative(root[1..], p[1..])
    else seq(|root|, _ => "..") + p
  }

  /** The test of the original: the way does not begin by going up. */
  predicate Within(root: string, p: string)
    requires Clean(root) && Clean(p)
  {
    var way := Relative(Components(root), Components(p));
    way == [] || way[0] != ".."
  }

  lemma {:induction false} RelativeDown(root: seq<string>, p: seq<string>)
    requires forall i | 0 <= i < |p| :: p[i] != ".."
    ensures (Relative(root, p) == [] || Relative(root, p)[0] != "..") <==> root <= p
  {
    if root != [] && p != [] && root[0] == p[0] {
      RelativeDown(root[1..], p[1..]);
      assert root == [root[0]] + root[1..] && p == [p[0]] + p[1..];
    } else if root != [] {
      assert Relative(root, p)[0] == "..";
    }
  }

  /** A path is within a root exactly when the root's components begin it. */
  lemma WithinIsPrefix(root: string, p: string)
    requires Clean(root) && Clean(p)
    ensures Within(root, p) <==> Components(root) <= Components(p)
  {
    if p != "/" {
      assert forall i | 1 <= i < |Split(p)| :: Plain(Split(p)[i]);
    }
    RelativeDown(Components(root), Components(p));
  }

  // ----------------------------------------------------------- slash by slash

  function Rejoined(c: seq<string>): string
    requires c != []
  {
    if |c| == 1 then c[0] else c[0] + "/" + Rejoined(c[1..])
  }

  /** The pieces hold no slash, and with slashes between them they are the path again. */
  lemma {:induction false} PiecesMakePath(p: string)
    ensures Rejoined(Split(p)) == p && forall c | c in Split(p) :: '/' !in c
  {
    if p != "" {
      var rest := Split(p[1..]);
      PiecesMakePath(p[1..]);
      assert p == [p[0]] + p[1..];
      if p[0] == '/' {
        assert ([""] + rest)[1..] == rest;
      } else {
        assert ([[p[0]] + rest[0]] + rest[1..])[1..] == rest[1..];
      }
    }
  }

  /** A text that begins with a name, up to the next slash or the end. */
  predicate NameFollows(s: string) {
    && s != "" && s[0] != '/'
    && s != "." && !("./" <= s) && s != ".." && !("../" <= s)
  }

  lemma FirstPiece(s: string)
    ensures Plain(Split(s)[0]) <==> NameFollows(s)
  {
    Alone("", s);
    Alone(".", s);
    Alone("..", s);
  }

  /** A piece comes first exactly if the text is that, or goes on with a slash. */
  lemma {:induction false} Alone(c: string, s: string)
    requires '/' !in c
    ensures Split(s)[0] == c <==> s == c || c + "/" <= s
    decreases |s|
  {
    if s != "" && s[0] != '/' {
      assert s == [s[0]] + s[1..];
      if c != "" && c[0] == s[0] {
        Alone(c[1..], s[1..]);
        assert c == [c[0]] + c[1..] && c + "/" == [c[0]] + (c[1..] + "/");
      }
    } else if s != "" && c == "" {
      assert "/" == [s[0]];
    }
  }

  lemma {:induction false} EveryPiece(s: string)
    ensures (forall k | 1 <= k < |Split(s)| :: Plain(Split(s)[k]))
            <==> forall i | 0 <= i < |s| && s[i] == '/' :: NameFollows(s[i + 1..])
  {
    hide NameFollows, Plain;
    if s != "" {
      EveryPiece(s[1..]);
      FirstPiece(s[1..]);
      var rest := Split(s[1..]);
      if s[0] == '/' {
        assert forall k | 1 <= k < |Split(s)| :: Split(s)[k] == rest[k - 1];
        assert forall k | 0 <= k < |rest| :: rest[k] == Split(s)[k + 1];
        LaterSlashes(s);
      } else {
        assert forall k | 1 <= k < |Split(s)| :: Split(s)[k] == rest[k];
        LaterSlashes(s);
      }
    }
  }

  lemma LaterSlashes(s: string)
    requires s != ""
    ensures (forall i | 0 <= i < |s[1..]| && s[1..][i] == '/' :: NameFollows(s[1..][i + 1..]))
            <==> forall i | 1 <= i < |s| && s[i] == '/' :: NameFollows(s[i + 1..])
  {
    hide NameFollows;
    assert forall i | 0 <= i < |s| - 1 :: s[1..][i] == s[i + 1] && s[1..][i + 1..] == s[i + 2..];
    forall i | 1 <= i < |s| && s[i] == '/' && forall j | 0 <= j < |s[1..]| && s[1..][j] == '/' :: NameFollows(s[1..][j + 1..])
      ensures NameFollows(s[i + 1..])
    {
      assert s[1..][i - 1] == '/' && s[1..][i - 1 + 1..] == s[i + 1..];
    }
  }

  /** A path is clean exactly if it is the root, or each of its slashes, the first included, is followed by a name. */
  lemma CleanIs(p: string)
    ensures Clean(p) <==> p == "/" || ("/" <= p && forall i | 0 <= i < |p| && p[i] == '/' :: NameFollows(p[i + 1..]))
  {
    hide NameFollows, Split, Plain;
    EveryPiece(p);
  }
}
