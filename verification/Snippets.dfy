/** Command templates with named places for words. */
module Snippets {
  import opened Shell

  predicate Letter(c: char) { 'A' <= c <= 'Z' || 'a' <= c <= 'z' || c == '_' }

  /** The longest run of letters, underscores and digits in front. */
  function NameRun(t: string): (n: nat)
    ensures n <= |t|
    ensures forall i | 0 <= i < n :: Letter(t[i]) || '0' <= t[i] <= '9'
    ensures n < |t| ==> !(Letter(t[n]) || '0' <= t[n] <= '9')
  {
    if t == "" || !(Letter(t[0]) || '0' <= t[0] <= '9') then 0 else 1 + NameRun(t[1..])
  }

  datatype Place = None | Place(name: string)

  /** The place that a template begins with. */
  function PlaceAt(t: string): (p: Place)
    ensures p.Place? ==> |p.name| > 0 && "{{" + p.name + "}}" <= t
  {
    if !("{{" <= t) then None else
    var n := NameRun(t[2..]);
    if n == 0 || !Letter(t[2]) || !("}}" <= t[2 + n..]) then None else
      assert t == "{{" + t[2..2 + n] + "}}" + t[4 + n..];
      Place(t[2..2 + n])
  }

  function Width(p: Place): nat
    requires p.Place?
  {
    |p.name| + 4
  }

  /** The names of all places, from left to right without overlap. */
  function Names(t: string): seq<string>
    decreases |t|
  {
    if t == "" then [] else
    var p := PlaceAt(t);
    if p.Place? then [p.name] + Names(t[Width(p)..]) else Names(t[1..])
  }

  /** Every place replaced by its quoted value. */
  function Filled(t: string, values: map<string, string>): string
    requires forall n | n in Names(t) :: n in values
    decreases |t|
  {
    if t == "" then "" else
    var p := PlaceAt(t);
    if p.Place? then
      assert p.name in Names(t);
      assert forall n | n in Names(t[Width(p)..]) :: n in Names(t);
      Quote(values[p.name]) + Filled(t[Width(p)..], values)
    else [t[0]] + Filled(t[1..], values)
  }

  // ------------------------------------------------------------------ places

  predicate IsNameStart(c: char) { 'a' <= c <= 'z' || 'A' <= c <= 'Z' || c == '_' }

  /** A name: a letter or an underscore, and then such or digits. */
  predicate IsName(n: string) {
    n != "" && IsNameStart(n[0]) && forall c | c in n :: IsNameStart(c) || '0' <= c <= '9'
  }

  lemma {:induction false} NameRunsTo(n: string, rest: string)
    requires (forall c | c in n :: IsNameStart(c) || '0' <= c <= '9') && "}}" <= rest
    ensures NameRun(n + rest) == |n|
  {
    var t := n + rest;
    if n == "" {
      assert t == rest && rest[0] == '}';
    } else {
      assert n[0] in n && t[0] == n[0] && t[1..] == n[1..] + rest;
      assert forall c | c in n[1..] :: c in n;
      NameRunsTo(n[1..], rest);
    }
  }

  /** A template begins with a place exactly if it begins with a name in double braces. */
  lemma PlaceIs(t: string, n: string)
    ensures PlaceAt(t) == Place(n) <==> IsName(n) && "{{" + n + "}}" <= t
  {
    var whole := "{{" + n + "}}";
    if IsName(n) && whole <= t {
      var rest := t[2 + |n|..];
      assert t[2..] == n + rest && "}}" <= rest by {
        assert t[..|whole|] == whole;
        assert forall i | 0 <= i < |n| :: t[2 + i] == whole[2 + i] == n[i];
        assert t[2 + |n|] == whole[2 + |n|] && t[3 + |n|] == whole[3 + |n|];
      }
      assert t[0] == whole[0] && t[1] == whole[1];
      NameRunsTo(n, rest);
      assert t[2..2 + |n|] == n && t[2] == n[0];
    }
    if PlaceAt(t) == Place(n) {
      PlaceHasName(t);
    }
  }

  lemma PlaceHasName(t: string)
    requires PlaceAt(t).Place?
    ensures IsName(PlaceAt(t).name)
  {
    var u := t[2..];
    var n := NameRun(u);
    assert t[2..2 + n] == u[..n];
    forall c | c in u[..n]
      ensures IsNameStart(c) || '0' <= c <= '9'
    {
      var i :| 0 <= i < n && u[..n][i] == c;
      assert u[i] == c;
    }
  }

  lemma FilledOne(t: string, values: map<string, string>)
    requires (forall n | n in Names(t) :: n in values) && t != ""
    ensures var p := PlaceAt(t);
            if p.Place? then
              && p.name in values && (forall n | n in Names(t[Width(p)..]) :: n in values)
              && Filled(t, values) == Quote(values[p.name]) + Filled(t[Width(p)..], values)
            else
              && (forall n | n in Names(t[1..]) :: n in values)
              && Filled(t, values) == [t[0]] + Filled(t[1..], values)
  {
    hide PlaceAt, Quote;
    var p := PlaceAt(t);
    if p.Place? {
      assert p.name in Names(t);
      assert forall n | n in Names(t[Width(p)..]) :: n in Names(t);
    }
  }

  /** What stands in front of the first place stays as it is, the place becomes its quoted value. */
  lemma {:induction false} FilledFromFirst(t: string, k: nat, values: map<string, string>)
    requires (forall n | n in Names(t) :: n in values) && k <= |t|
    requires forall i | 0 <= i < k :: PlaceAt(t[i..]).None?
    ensures forall n | n in Names(t[k..]) :: n in values
    ensures Filled(t, values) == t[..k] + Filled(t[k..], values)
    ensures k < |t| && PlaceAt(t[k..]).Place? ==>
              var p := PlaceAt(t[k..]);
              && Width(p) <= |t| - k && p.name in values && (forall n | n in Names(t[k + Width(p)..]) :: n in values)
              && Filled(t[k..], values) == Quote(values[p.name]) + Filled(t[k + Width(p)..], values)
    decreases k
  {
    hide PlaceAt, Quote, Filled, Names;
    if k == 0 {
      assert t[0..] == t && t[..0] + t == t;
      assert t[..0] + Filled(t, values) == Filled(t, values);
      if t != "" {
        FilledOne(t, values);
      }
    } else {
      var u := t[1..];
      assert t[0..] == t;
      FilledOne(t, values);
      assert forall i | 0 <= i < k - 1 :: u[i..] == t[i + 1..];
      FilledFromFirst(u, k - 1, values);
      assert u[k - 1..] == t[k..] && [t[0]] + u[..k - 1] == t[..k];
      assert [t[0]] + (u[..k - 1] + Filled(t[k..], values)) == t[..k] + Filled(t[k..], values);
      if k < |t| && PlaceAt(t[k..]).Place? {
        assert u[k - 1 + Width(PlaceAt(t[k..]))..] == t[k + Width(PlaceAt(t[k..]))..];
      }
    }
  }

  datatype Expansion = Expanded(text: string) | MissingParameter(name: string)

  // -------------------------------------------------------------- parameters

  /** The order of strings by their characters. */
  predicate Less(a: string, b: string) {
    b != "" && (a == "" || a[0] < b[0] || (a[0] == b[0] && Less(a[1..], b[1..])))
  }

  lemma {:induction false} LessIsOrder(a: string, b: string, c: string)
    ensures Less(a, b) && Less(b, c) ==> Less(a, c)
    ensures a == b || Less(a, b) || Less(b, a)
    ensures !Less(a, a)
  {
    if a != "" {
      LessIsOrder(a[1..], if b == "" then "" else b[1..], if c == "" then "" else c[1..]);
      assert b != "" && a[0] == b[0] && a[1..] == b[1..] ==> a == [a[0]] + a[1..] == b;
    }
  }

  /** Where two strings part. */
  ghost predicate PartsAt(a: string, b: string, i: nat) {
    i <= |a| && i < |b| && a[..i] == b[..i] && (i == |a| || a[i] < b[i])
  }

  /** A string is less if it is a beginning of the other, or has the smaller character where they part. */
  lemma {:induction false} LessIs(a: string, b: string)
    ensures Less(a, b) <==> exists i: nat :: PartsAt(a, b, i)
  {
    if b != "" && a == "" {
      assert PartsAt(a, b, 0);
    } else if b != "" {
      LessIs(a[1..], b[1..]);
      if Less(a, b) {
        if a[0] < b[0] {
          assert PartsAt(a, b, 0);
        } else {
          var i: nat :| PartsAt(a[1..], b[1..], i);
          assert a[..i + 1] == [a[0]] + a[1..][..i] && b[..i + 1] == [b[0]] + b[1..][..i];
          assert PartsAt(a, b, i + 1);
        }
      }
      if i: nat :| PartsAt(a, b, i) {
        if i > 0 {
          assert a[0] == a[..i][0] == b[..i][0] == b[0];
          assert a[1..][..i - 1] == a[..i][1..] && b[1..][..i - 1] == b[..i][1..];
          assert PartsAt(a[1..], b[1..], i - 1);
        }
      }
    }
  }

  predicate Sorted(names: seq<string>) { forall i, j | 0 <= i < j < |names| :: Less(names[i], names[j]) }

  method Parameters(t: string) returns (names: seq<string>)
    ensures Sorted(names) && forall n :: n in names <==> n in Names(t)
  {
    hide PlaceAt, Names;
    var found: set<string> := {};
    var i := 0;
    while i < |t|
      invariant i <= |t|
      invariant forall n :: n in Names(t) <==> n in found || n in Names(t[i..])
    {
      var p := PlaceAt(t[i..]);
      NamesStep(t, i);
      if p.Place? {
        found := found + {p.name};
        i := i + Width(p);
      } else {
        i := i + 1;
      }
    }
    assert t[|t|..] == "";
    NoNames();
    names := Sort(found);
  }

  method Sort(found: set<string>) returns (names: seq<string>)
    ensures Sorted(names) && forall n :: n in names <==> n in found
  {
    names := [];
    var todo := found;
    while todo != {}
      invariant todo <= found && Sorted(names) && forall n :: n in names <==> n in found && n !in todo
    {
      var n :| n in todo;
      InsertSorted(names, n);
      names := Inserted(names, n);
      todo := todo - {n};
    }
  }

  function Inserted(names: seq<string>, n: string): seq<string> {
    if names == [] || Less(n, names[0]) then [n] + names else [names[0]] + Inserted(names[1..], n)
  }

  lemma {:induction false} InsertSorted(names: seq<string>, n: string)
    requires Sorted(names) && n !in names
    ensures Sorted(Inserted(names, n)) && forall m :: m in Inserted(names, n) <==> m == n || m in names
  {
    hide Less;
    var out := Inserted(names, n);
    if names != [] {
      var rest := names[1..];
      assert names == [names[0]] + rest;
      LessIsOrder(n, names[0], "");
      if Less(n, names[0]) {
        forall i | 0 < i < |names|
          ensures Less(n, names[i])
        {
          LessIsOrder(n, names[0], names[i]);
        }
      } else {
        InsertSorted(rest, n);
        forall m | m in Inserted(rest, n)
          ensures Less(names[0], m)
        {
          if m in rest {
            var i :| 0 <= i < |rest| && rest[i] == m;
            assert names[i + 1] == m;
          }
        }
      }
    }
  }

  lemma NoNames()
    ensures Names("") == []
  {
  }

  lemma NamesStep(t: string, i: nat)
    requires i < |t|
    ensures var p := PlaceAt(t[i..]);
            && (p.Place? ==> i + Width(p) <= |t| && Names(t[i..]) == [p.name] + Names(t[i + Width(p)..]))
            && (p.None? ==> Names(t[i..]) == Names(t[i + 1..]))
  {
    var p := PlaceAt(t[i..]);
    if p.Place? {
      assert t[i..][Width(p)..] == t[i + Width(p)..];
    }
    assert t[i..][1..] == t[i + 1..];
  }

  method ExpandSnippet(t: string, values: map<string, string>) returns (e: Expansion)
    ensures e.Expanded? <==> forall n | n in Names(t) :: n in values
    ensures e.Expanded? ==> e.text == Filled(t, values)
    ensures e.MissingParameter? ==>
              && e.name in Names(t) && e.name !in values
              && forall n | n in Names(t) && n !in values :: n == e.name || Less(e.name, n)
  {
    hide PlaceAt, Names, Less;
    var names := Parameters(t);
    for i := 0 to |names|
      invariant forall j | 0 <= j < i :: names[j] in values
    {
      if names[i] !in values {
        assert names[i] in names;
        return MissingParameter(names[i]);
      }
    }
    return Expanded(Filled(t, values));
  }

  // ----------------------------------------------------------------- meaning

  /** The shell reads the template, with a value taken as it is at each place. */
  function Meant(x: Lexer, t: string, values: map<string, string>): Lexer
    requires forall n | n in Names(t) :: n in values
    decreases |t|
  {
    if t == "" then x else
    var p := PlaceAt(t);
    if p.Place? then
      assert p.name in Names(t);
      assert forall n | n in Names(t[Width(p)..]) :: n in Names(t);
      Meant(x.(mode := Plain, word := x.word + values[p.name]), t[Width(p)..], values)
    else Meant(Feed(x, t[0]), t[1..], values)
  }

  /** No place stands within quotes, or behind something that is more than words. */
  predicate Unquoted(m: Mode, t: string)
    decreases |t|
  {
    if t == "" then true else
    var p := PlaceAt(t);
    if p.Place? then IsOpen(m) && Unquoted(Plain, t[Width(p)..]) else Unquoted(Next(m, t[0]), t[1..])
  }

  /** Where the shell is in the end, if every place held a plain word. */
  function Outline(m: Mode, t: string): Mode
    decreases |t|
  {
    if t == "" then m else
    var p := PlaceAt(t);
    if p.Place? then Outline(if IsOpen(m) then Plain else m, t[Width(p)..]) else Outline(Next(m, t[0]), t[1..])
  }

  /** Apart from its places the template is made of words and operators. */
  predicate OtherwiseWords(t: string) { IsOpen(Outline(Between, t)) }

  /** A value for every name, none with a NUL. */
  predicate Suits(t: string, values: map<string, string>) {
    forall n | n in Names(t) :: n in values && NoNul(values[n])
  }

  lemma {:induction false} FilledMeans(x: Lexer, t: string, values: map<string, string>)
    requires Suits(t, values) && Unquoted(x.mode, t)
    ensures FeedAll(x, Filled(t, values)) == Meant(x, t, values)
    ensures Meant(x, t, values).mode == Outline(x.mode, t)
    decreases |t|
  {
    hide PlaceAt, Feed, FeedAll, Quote, Next;
    if t == "" {
      NothingFeeds(x);
    } else {
      var p := PlaceAt(t);
      if p.Place? {
        var rest := t[Width(p)..];
        assert p.name in Names(t);
        assert forall n | n in Names(rest) :: n in Names(t);
        var y := x.(mode := Plain, word := x.word + values[p.name]);
        QuoteFeeds(x, values[p.name]);
        FeedJoin(x, Quote(values[p.name]), Filled(rest, values));
        FilledMeans(y, rest, values);
      } else {
        FeedMode(x, t[0]);
        FilledMeans(Feed(x, t[0]), t[1..], values);
        OneFeeds(x, t[0], Filled(t[1..], values));
      }
    }
  }

  lemma NothingFeeds(x: Lexer)
    ensures FeedAll(x, "") == x
  {
  }

  lemma OneFeeds(x: Lexer, c: char, rest: string)
    ensures FeedAll(x, [c] + rest) == FeedAll(Feed(x, c), rest)
  {
    assert ([c] + rest)[1..] == rest;
  }

  /**
   A template whose places are unquoted is read as the template says, each value being just a
   stretch of a word: no value can end a word, begin a quotation or be acted on.
   */
  lemma SnippetKeepsMeaning(t: string, values: map<string, string>)
    requires Suits(t, values) && Unquoted(Between, t)
    ensures FeedAll(START, Filled(t, values)) == Meant(START, t, values)
  {
    hide Filled, Meant, FeedAll, Names, Unquoted, Outline;
    FilledMeans(START, t, values);
  }

  // ------------------------------------------------------- places within quotes

  lemma {:induction false} ExpandsStays(x: Lexer, s: string)
    requires x.mode.Expands?
    ensures FeedAll(x, s).mode.Expands?
    decreases |s|
  {
    if s != "" {
      ExpandsStays(Feed(x, s[0]), s[1..]);
    }
  }

  lemma {:induction false} OutlineStays(t: string)
    ensures Outline(Expands, t).Expands?
    decreases |t|
  {
    hide PlaceAt;
    if t != "" {
      var p := PlaceAt(t);
      if p.Place? {
        OutlineStays(t[Width(p)..]);
      } else {
        OutlineStays(t[1..]);
      }
    }
  }

  /** Within quotes the quotes of a value end them, or do not matter; a dollar sign is acted on. */
  lemma DollarActs(x: Lexer)
    requires x.mode.Single? || x.mode.Double?
    ensures FeedAll(x, Quote("$")).mode.Expands?
  {
    var q := Quote("$");
    assert ReplaceQuotes("$") == "$" + ReplaceQuotes("$"[1..]);
    assert q == "'$'";
    var y := Feed(x, q[0]);
    var z := Feed(y, q[1]);
    assert z.mode.Expands?;
    assert q[1..][0] == '$' && q[1..][1..] == q[2..];
    assert FeedAll(y, q[1..]) == FeedAll(z, q[1..][1..]);
    ExpandsStays(z, q[2..]);
  }

  /** With dollar signs for values, the first quoted place makes the shell do more than read words. */
  lemma {:induction false} QuotedPlaceActs(x: Lexer, t: string, values: map<string, string>)
    requires !Unquoted(x.mode, t) && !Outline(x.mode, t).Expands?
    requires forall n | n in Names(t) :: n in values && values[n] == "$"
    ensures FeedAll(x, Filled(t, values)).mode.Expands?
    decreases |t|
  {
    hide PlaceAt, Feed, FeedAll, Quote, Next;
    var p := PlaceAt(t);
    if p.Place? {
      var rest := t[Width(p)..];
      assert p.name in Names(t);
      assert forall n | n in Names(rest) :: n in Names(t);
      FeedJoin(x, Quote("$"), Filled(rest, values));
      if IsOpen(x.mode) {
        QuoteFeeds(x, "$");
        QuotedPlaceActs(x.(mode := Plain, word := x.word + "$"), rest, values);
      } else {
        if x.mode.Expands? {
          OutlineStays(t);
        } else {
          DollarActs(x);
          ExpandsStays(FeedAll(x, Quote("$")), Filled(rest, values));
        }
      }
    } else {
      FeedMode(x, t[0]);
      QuotedPlaceActs(Feed(x, t[0]), t[1..], values);
      OneFeeds(x, t[0], Filled(t[1..], values));
    }
  }

  function Dollars(t: string): map<string, string> { map n | n in Names(t) :: "$" }

  /**
   For a template that is otherwise made of words and operators: with every suitable choice of
   values the shell reads words and operators if and only if no place is quoted.
   */
  lemma WordsIffUnquoted(t: string)
    requires OtherwiseWords(t)
    ensures (forall values | Suits(t, values) :: Lex(Filled(t, values)).Tokens?) <==> Unquoted(Between, t)
  {
    hide Filled, Meant, FeedAll, Names, Unquoted, Outline;
    if Unquoted(Between, t) {
      forall values | Suits(t, values)
        ensures Lex(Filled(t, values)).Tokens?
      {
        FilledMeans(START, t, values);
      }
    } else {
      assert Suits(t, Dollars(t));
      QuotedPlaceActs(START, t, Dollars(t));
      assert !Lex(Filled(t, Dollars(t))).Tokens?;
    }
  }

  // ------------------------------------------------------------------ examples

  const X_PLACE := "{{x}}"

  lemma PlaceOfX(rest: string)
    ensures PlaceAt(X_PLACE + rest) == Place("x")
    ensures (X_PLACE + rest)[5..] == rest
  {
    var t := X_PLACE + rest;
    var u := t[2..];
    assert u[0] == 'x' && u[1] == '}';
    assert NameRun(u[1..]) == 0;
    assert NameRun(u) == 1;
    assert t[3] == '}' && t[4] == '}';
    assert "}}" <= t[3..];
    assert t[2..3] == "x";
  }

  lemma NoPlace(t: string)
    requires t != "" && t[0] != '{'
    ensures PlaceAt(t).None?
  {
  }

  const IN_QUOTES := "\"{{x}}\""

  lemma QuotesAroundX()
    ensures !Unquoted(Between, IN_QUOTES) && Outline(Between, IN_QUOTES) == Plain
  {
    hide PlaceAt;
    var t := X_PLACE + "\"";
    assert IN_QUOTES[1..] == t;
    PlaceOfX("\"");
    NoPlace(IN_QUOTES);
    NoPlace("\"");
    assert "\""[1..] == "";
    assert Outline(Double, t) == Outline(Double, "\"") == Outline(Plain, "");
  }

  /** A place in double quotes: the template is otherwise a word, and some value makes it more than that. */
  lemma PlaceInQuotes()
    ensures OtherwiseWords(IN_QUOTES) && !Unquoted(Between, IN_QUOTES)
    ensures exists values :: Suits(IN_QUOTES, values) && Lex(Filled(IN_QUOTES, values)).NotWords?
  {
    hide PlaceAt, Lex, Filled, Suits, Outline, Unquoted, Names;
    QuotesAroundX();
    WordsIffUnquoted(IN_QUOTES);
  }

  const AS_OPTION := "a && b --opt={{x}}"

  /** A character that is just part of a word, or ends one. */
  predicate Ordinary(c: char) { c != '{' && c != QUOTE && c != '"' && c !in "$`\\*?[\0~#<" }

  /** Operators, blanks and an equals sign do not come in the way of a place behind them. */
  lemma {:induction false} OpenBehindOrdinary(m: Mode, front: string, t: string)
    requires IsOpen(m) && (forall c | c in front :: Ordinary(c)) && forall n | IsOpen(n) :: Unquoted(n, t)
    ensures Unquoted(m, front + t)
    decreases |front|
  {
    hide PlaceAt;
    var all := front + t;
    if front == "" {
      assert all == t;
    } else {
      var rest := front[1..];
      assert all[0] == front[0] && all[1..] == rest + t;
      assert Ordinary(front[0]);
      assert forall c | c in rest :: c in front;
      NoPlace(all);
      OpenBehindOrdinary(Next(m, front[0]), rest, t);
    }
  }

  /** A template with a here-document is not made of words and operators, whatever its body holds. */
  lemma {:induction false} HereDocumentIsMore(m: Mode, front: string, rest: string)
    requires IsOpen(m) && forall c | c in front :: Ordinary(c)
    ensures Outline(m, front + ("<<" + rest)).Expands?
    decreases |front|
  {
    hide PlaceAt;
    var all := front + ("<<" + rest);
    if front == "" {
      assert all[0] == '<' && all[1..][0] == '<' && all[1..][1..] == rest;
      NoPlace(all);
      NoPlace(all[1..]);
      OutlineStays(rest);
    } else {
      assert all[0] == front[0] && all[1..] == front[1..] + ("<<" + rest);
      assert Ordinary(front[0]);
      assert forall c | c in front[1..] :: c in front;
      NoPlace(all);
      HereDocumentIsMore(Next(m, front[0]), front[1..], rest);
    }
  }

  const FRONT := "a && b --opt="

  lemma FrontIsOrdinary()
    ensures forall c | c in FRONT :: Ordinary(c)
    ensures AS_OPTION == FRONT + X_PLACE
  {
  }

  lemma XIsOpen(m: Mode)
    requires IsOpen(m)
    ensures Unquoted(m, X_PLACE)
  {
    hide PlaceAt;
    PlaceOfX("");
    assert X_PLACE + "" == X_PLACE && X_PLACE[5..] == "";
  }

  lemma PlaceAsOption()
    ensures Unquoted(Between, AS_OPTION)
  {
    hide PlaceAt, Unquoted, Ordinary;
    FrontIsOrdinary();
    forall n | IsOpen(n)
      ensures Unquoted(n, X_PLACE)
    {
      XIsOpen(n);
    }
    OpenBehindOrdinary(Between, FRONT, X_PLACE);
  }
}
