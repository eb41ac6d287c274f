/** Quoting for a POSIX shell, and the way a shell takes it apart again. */
module Shell {

  const QUOTE := '\''
  const ESCAPED := "'\"'\"'"

  function ReplaceQuotes(s: string): string {
    if s == "" then "" else (if s[0] == QUOTE then ESCAPED else [s[0]]) + ReplaceQuotes(s[1..])
  }

  function Quote(s: string): string { [QUOTE] + ReplaceQuotes(s) + [QUOTE] }

  // ------------------------------------------------------------------- lexer

  /**
   Where the shell is: between tokens, right behind an unquoted `<`, in a word, in a word right
   behind an unquoted `=` or `:`, or in quotes; or it has come to a character that makes it do
   more than read words. By the Shell Command Language of POSIX.1-2017 nothing is special
   between single quotes (section 2.2.2), between double quotes a dollar sign, a backquote and a
   backslash are (section 2.2.3), and `<<` begins a here-document (section 2.7.4), in whose body
   quotes are ordinary characters.
   */
  datatype Mode = Between | Redirect | Plain | Edge | Single | Double | Expands

  datatype Token = Word(text: string) | Operator(c: char)

  /** The tokens read so far, and the word being read. */
  datatype Lexer = Lexer(mode: Mode, tokens: seq<Token>, word: string)

  const START := Lexer(Between, [], "")

  predicate IsOperator(c: char) { c in "|&;<>()\n" }

  predicate IsBlank(c: char) { c == ' ' || c == '\t' }

  /** No word has begun. */
  predicate IsGap(m: Mode) { m.Between? || m.Redirect? }

  /** Unquoted, these are for expansions, patterns and escapes; the others depend on the place. */
  predicate Acts(m: Mode, c: char) {
    c in "$`\\*?[\0" || (c == '~' && (IsGap(m) || m.Edge?)) || (c == '#' && IsGap(m)) || (c == '<' && m.Redirect?)
  }

  /** Outside quotes, and with nothing special so far. */
  predicate IsOpen(m: Mode) { IsGap(m) || m.Plain? || m.Edge? }

  function Next(m: Mode, c: char): Mode {
    match m
    case Expands => Expands
    case Single => if c == QUOTE then Plain else if c == '\0' then Expands else Single
    case Double =>
      if c == '"' then Plain else if c == '$' || c == '`' || c == '\\' || c == '\0' then Expands else Double
    case _ =>
      if c == QUOTE then Single
      else if c == '"' then Double
      else if Acts(m, c) then Expands
      else if c == '<' then Redirect
      else if IsOperator(c) || IsBlank(c) then Between
      else if c == '=' || c == ':' then Edge
      else Plain
  }

  function WordDone(x: Lexer): seq<Token> { if IsGap(x.mode) then x.tokens else x.tokens + [Word(x.word)] }

  function Feed(x: Lexer, c: char): Lexer {
    var m := Next(x.mode, c);
    if m.Expands? then x.(mode := Expands)
    else if IsOpen(x.mode) then
      if c == QUOTE || c == '"' then x.(mode := m)
      else if IsOperator(c) then Lexer(m, WordDone(x) + [Operator(c)], "")
      else if IsBlank(c) then Lexer(m, WordDone(x), "")
      else x.(mode := m, word := x.word + [c])
    else if m != x.mode then x.(mode := m)
    else x.(word := x.word + [c])
  }

  lemma FeedMode(x: Lexer, c: char)
    ensures Feed(x, c).mode == Next(x.mode, c)
  {
  }

  function FeedAll(x: Lexer, s: string): Lexer
    decreases |s|
  {
    if s == "" then x else FeedAll(Feed(x, s[0]), s[1..])
  }

  datatype Line = Tokens(tokens: seq<Token>) | NotWords

  /** The tokens of a command line, if it is nothing but words and operators. */
  function Lex(s: string): Line {
    var x := FeedAll(START, s);
    if IsOpen(x.mode) then Tokens(WordDone(x)) else NotWords
  }

  lemma {:induction false} FeedJoin(x: Lexer, a: string, b: string)
    ensures FeedAll(x, a + b) == FeedAll(FeedAll(x, a), b)
    decreases |a|
  {
    hide Feed;
    if a == "" {
      assert a + b == b;
    } else {
      assert (a + b)[0] == a[0] && (a + b)[1..] == a[1..] + b;
      FeedJoin(Feed(x, a[0]), a[1..], b);
    }
  }

  /** Leaving the single quotes, a double-quoted single quote, and back. */
  lemma EscapedFeeds(x: Lexer)
    requires x.mode.Single?
    ensures FeedAll(x, ESCAPED) == x.(word := x.word + [QUOTE])
  {
    var a := Feed(x, ESCAPED[0]);
    var b := Feed(a, ESCAPED[1]);
    var c := Feed(b, ESCAPED[2]);
    var d := Feed(c, ESCAPED[3]);
    assert ESCAPED[1..][1..] == ESCAPED[2..] && ESCAPED[2..][1..] == ESCAPED[3..] && ESCAPED[3..][1..] == ESCAPED[4..];
    assert ESCAPED[4..] == [QUOTE] && ESCAPED[4..][1..] == "";
    assert FeedAll(d, [QUOTE]) == FeedAll(Feed(d, QUOTE), "");
    assert FeedAll(c, ESCAPED[3..]) == FeedAll(d, ESCAPED[4..]);
    assert FeedAll(b, ESCAPED[2..]) == FeedAll(c, ESCAPED[3..]);
    assert FeedAll(a, ESCAPED[1..]) == FeedAll(b, ESCAPED[2..]);
  }

  predicate NoNul(s: string) { '\0' !in s }

  lemma {:induction false} InsideFeeds(x: Lexer, s: string)
    requires x.mode.Single? && NoNul(s)
    ensures FeedAll(x, ReplaceQuotes(s)) == x.(word := x.word + s)
    decreases |s|
  {
    if s == "" {
    } else {
      var first := if s[0] == QUOTE then ESCAPED else [s[0]];
      FeedJoin(x, first, ReplaceQuotes(s[1..]));
      var y := x.(word := x.word + [s[0]]);
      assert FeedAll(x, first) == y by {
        if s[0] == QUOTE {
          EscapedFeeds(x);
        } else {
          assert [s[0]][1..] == "";
        }
      }
      InsideFeeds(y, s[1..]);
      assert x.word + [s[0]] + s[1..] == x.word + s;
    }
  }

  /** A quoted string adds itself to the word at hand, whatever it contains. */
  lemma QuoteFeeds(x: Lexer, s: string)
    requires IsOpen(x.mode) && NoNul(s)
    ensures FeedAll(x, Quote(s)) == x.(mode := Plain, word := x.word + s)
  {
    var inside := [QUOTE] + ReplaceQuotes(s);
    FeedJoin(x, inside, [QUOTE]);
    FeedJoin(x, [QUOTE], ReplaceQuotes(s));
    assert [QUOTE][1..] == "";
    assert FeedAll(x, [QUOTE]) == x.(mode := Single);
    InsideFeeds(x.(mode := Single), s);
    var y := x.(mode := Single, word := x.word + s);
    assert FeedAll(y, [QUOTE]) == FeedAll(y.(mode := Plain), "");
  }

  /** A quoted string is one word, the string itself. */
  lemma QuoteIsOneWord(s: string)
    requires NoNul(s)
    ensures Lex(Quote(s)) == Tokens([Word(s)])
  {
    QuoteFeeds(START, s);
    assert "" + s == s;
  }

  function AreWords(words: seq<string>): (t: seq<Token>)
    ensures |t| == |words| && forall i | 0 <= i < |words| :: t[i] == Word(words[i])
  {
    seq(|words|, i requires 0 <= i < |words| => Word(words[i]))
  }

  function Joined(words: seq<string>): string {
    if words == [] then ""
    else if |words| == 1 then Quote(words[0])
    else Joined(words[..|words| - 1]) + " " + Quote(words[|words| - 1])
  }

  lemma BlankFeeds(x: Lexer)
    requires x.mode.Plain?
    ensures FeedAll(x, " ") == Lexer(Between, x.tokens + [Word(x.word)], "")
  {
    assert " "[1..] == "";
    assert FeedAll(x, " ") == FeedAll(Feed(x, ' '), "");
  }

  lemma {:induction false} LineFeeds(words: seq<string>)
    requires words != [] && forall w | w in words :: NoNul(w)
    ensures FeedAll(START, Joined(words)) == Lexer(Plain, AreWords(words[..|words| - 1]), words[|words| - 1])
  {
    hide FeedAll, Quote;
    var n := |words| - 1;
    var last := words[n];
    assert "" + last == last;
    if n == 0 {
      QuoteFeeds(START, last);
    } else {
      LineFeeds(words[..n]);
      FeedJoin(START, Joined(words[..n]) + " ", Quote(last));
      FeedJoin(START, Joined(words[..n]), " ");
      var before := AreWords(words[..n][..n - 1]);
      BlankFeeds(Lexer(Plain, before, words[n - 1]));
      assert before + [Word(words[n - 1])] == AreWords(words[..n]);
      QuoteFeeds(Lexer(Between, AreWords(words[..n]), ""), last);
    }
  }

  /** A line of quoted words reads back as those words. */
  lemma LineRoundTrip(words: seq<string>)
    requires forall w | w in words :: NoNul(w)
    ensures Lex(Joined(words)) == Tokens(AreWords(words))
  {
    if words != [] {
      LineFeeds(words);
      assert AreWords(words[..|words| - 1]) + [Word(words[|words| - 1])] == AreWords(words);
    }
  }

  lemma {:induction false} QuoteHasNoNul(s: string)
    requires NoNul(s)
    ensures NoNul(ReplaceQuotes(s)) && NoNul(Quote(s))
  {
    if s != "" {
      QuoteHasNoNul(s[1..]);
    }
  }

  /** Quoted `n` times over. */
  function Nested(s: string, n: nat): string { if n == 0 then s else Quote(Nested(s, n - 1)) }

  /** Each reading takes one layer of quotes off. */
  lemma {:induction false} NestingUnwraps(s: string, n: nat)
    requires NoNul(s)
    ensures NoNul(Nested(s, n)) && Lex(Nested(s, n + 1)) == Tokens([Word(Nested(s, n))])
  {
    if n > 0 {
      NestingUnwraps(s, n - 1);
      QuoteHasNoNul(Nested(s, n - 1));
    }
    QuoteIsOneWord(Nested(s, n));
  }

  /** Quoting loses nothing. */
  lemma QuoteIsInjective(s: string, t: string)
    requires Quote(s) == Quote(t)
    ensures s == t
  {
    var (a, b) := (ReplaceQuotes(s), ReplaceQuotes(t));
    assert a == Quote(s)[1..|Quote(s)| - 1] && b == Quote(t)[1..|Quote(t)| - 1];
    ReplacedApart(s, t);
  }

  /** What a string becomes begins with its first character, or with the escape for it. */
  lemma {:induction false} ReplacedApart(s: string, t: string)
    requires ReplaceQuotes(s) == ReplaceQuotes(t)
    ensures s == t
  {
    if s != "" && t != "" {
      var a := if s[0] == QUOTE then ESCAPED else [s[0]];
      var b := if t[0] == QUOTE then ESCAPED else [t[0]];
      var (x, y) := (ReplaceQuotes(s[1..]), ReplaceQuotes(t[1..]));
      assert (a + x)[0] == a[0] && (b + y)[0] == b[0];
      assert s[0] == t[0];
      assert x == (a + x)[|a|..] && y == (b + y)[|b|..];
      ReplacedApart(s[1..], t[1..]);
      assert s == [s[0]] + s[1..] && t == [t[0]] + t[1..];
    }
  }
}
