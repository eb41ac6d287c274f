/** Reading a local text file a page at a time. */
module LocalFiles {
  import opened Bytes

  predicate In(b: byte, lo: int, hi: int) { lo <= b as int <= hi }

  /** Bytes of the character at the front, by section 4 of RFC 3629, or 0 if there is none. */
  function Width(s: seq<byte>): (w: nat)
    ensures w <= |s| && w <= 4
  {
    if |s| >= 1 && In(s[0], 0, 0x7F) then 1
    else if |s| >= 2 && In(s[0], 0xC2, 0xDF) && In(s[1], 0x80, 0xBF) then 2
    else if |s| >= 3 && In(s[2], 0x80, 0xBF)
            && ((In(s[0], 0xE0, 0xE0) && In(s[1], 0xA0, 0xBF)) || (In(s[0], 0xE1, 0xEC) && In(s[1], 0x80, 0xBF))
                || (In(s[0], 0xED, 0xED) && In(s[1], 0x80, 0x9F)) || (In(s[0], 0xEE, 0xEF) && In(s[1], 0x80, 0xBF))) then 3
    else if |s| >= 4 && In(s[2], 0x80, 0xBF) && In(s[3], 0x80, 0xBF)
            && ((In(s[0], 0xF0, 0xF0) && In(s[1], 0x90, 0xBF)) || (In(s[0], 0xF1, 0xF3) && In(s[1], 0x80, 0xBF))
                || (In(s[0], 0xF4, 0xF4) && In(s[1], 0x80, 0x8F))) then 4
    else 0
  }

  predicate ValidUtf8(s: seq<byte>)
    decreases |s|
  {
    s == [] || (Width(s) > 0 && ValidUtf8(s[Width(s)..]))
  }

  /** What a page may hold. */
  predicate Text(s: seq<byte>) { ValidUtf8(s) && 0 !in s }

  // -------------------------------------------------------------- characters

  /** More bytes behind a character do not change it. */
  lemma WidthStands(s: seq<byte>, t: seq<byte>)
    requires Width(s) > 0
    ensures Width(s + t) == Width(s)
  {
  }

  lemma {:induction false} ValidJoins(s: seq<byte>, t: seq<byte>)
    requires ValidUtf8(s) && ValidUtf8(t)
    ensures ValidUtf8(s + t)
    decreases |s|
  {
    hide Width;
    if s == [] {
      assert s + t == t;
    } else {
      var w := Width(s);
      WidthStands(s, t);
      assert (s + t)[w..] == s[w..] + t;
      ValidJoins(s[w..], t);
    }
  }

  /** A cut that leaves valid text in front leaves valid text behind. */
  lemma {:induction false} ValidSplits(s: seq<byte>, t: seq<byte>)
    requires ValidUtf8(s + t) && ValidUtf8(s)
    ensures ValidUtf8(t)
    decreases |s|
  {
    hide Width;
    if s == [] {
      assert s + t == t;
    } else {
      var w := Width(s);
      WidthStands(s, t);
      assert (s + t)[w..] == s[w..] + t;
      ValidSplits(s[w..], t);
    }
  }

  /** Wherever valid text is cut, a character ends at most three bytes before. */
  lemma {:induction false} CutIsNear(s: seq<byte>, n: nat) returns (k: nat)
    requires ValidUtf8(s) && n <= |s|
    ensures n - 3 <= k <= n && ValidUtf8(s[..k])
    decreases |s|
  {
    hide Width;
    var w := Width(s);
    if n < 4 && w > n {
      k := 0;
    } else if s == [] {
      k := 0;
    } else {
      var rest := CutIsNear(s[w..], n - w);
      k := w + rest;
      FirstAlone(s);
      ValidJoins(s[..w], s[w..][..rest]);
      assert s[..k] == s[..w] + s[w..][..rest];
    }
  }

  lemma FirstAlone(s: seq<byte>)
    requires Width(s) > 0
    ensures ValidUtf8(s[..Width(s)])
  {
    var w := Width(s);
    assert Width(s[..w]) == w && s[..w][w..] == [];
  }

  // ------------------------------------------------------------------- pages

  datatype Page = Page(content: seq<byte>, next: nat, truncated: bool)
  datatype Answer = Ok(page: Page) | OutOfRange | NotText

  const LIMIT := 4096

  /** Give up to four bytes back until no character is cut. */
  function Trim(b: seq<byte>): (r: seq<byte>)
    ensures r <= b
  {
    if |b| > LIMIT - 4 && !ValidUtf8(b) then Trim(b[..|b| - 1]) else b
  }

  function Inspected(file: seq<byte>, offset: int): Answer {
    if offset < 0 || offset > |file| then OutOfRange else
    var truncated := |file| - offset > LIMIT;
    var b := if truncated then Trim(file[offset..offset + LIMIT]) else file[offset..];
    if Text(b) then Ok(Page(b, offset + |b|, truncated)) else NotText
  }

  method Inspect(file: seq<byte>, offset: int) returns (a: Answer)
    ensures a == Inspected(file, offset)
  {
    if offset < 0 || offset > |file| {
      return OutOfRange;
    }
    var b := if |file| - offset > LIMIT + 1 then file[offset..offset + LIMIT + 1] else file[offset..];
    var truncated := false;
    if |b| > LIMIT {
      truncated := true;
      b := b[..LIMIT];
      assert b == file[offset..offset + LIMIT];
      while |b| > 0 && !ValidUtf8(b) && |b| > LIMIT - 4
        invariant Trim(b) == Trim(file[offset..offset + LIMIT])
      {
        b := b[..|b| - 1];
      }
    }
    if !ValidUtf8(b) || 0 in b {
      return NotText;
    }
    return Ok(Page(b, offset + |b|, truncated));
  }

  /** The longest of the cuts of a page that does not cut a character. */
  predicate LongestCut(b: seq<byte>, k: nat) {
    |b| - 4 <= k <= |b| && ValidUtf8(b[..k]) && forall m | k < m <= |b| :: !ValidUtf8(b[..m])
  }

  lemma {:induction false} TrimIsLongest(b: seq<byte>, n: nat)
    requires |b| == 4096 && 4092 <= n <= 4096 && forall m | n < m <= 4096 :: !ValidUtf8(b[..m])
    ensures var r := Trim(b[..n]);
            if ValidUtf8(r) then LongestCut(b, |r|) else forall k: nat :: !LongestCut(b, k)
    decreases n
  {
    hide ValidUtf8;
    var c := b[..n];
    if n > 4092 && !ValidUtf8(c) {
      assert c[..n - 1] == b[..n - 1];
      TrimIsLongest(b, n - 1);
    } else if !ValidUtf8(c) {
      forall k: nat
        ensures !LongestCut(b, k)
      {
        assert k == 4092 ==> b[..k] == c;
      }
    }
  }

  /**
   What a page is, of any file: the rest if it fits, otherwise the longest beginning of 4092 to 4096
   bytes that does not cut a character; and only if that is text.
   */
  lemma PageIs(file: seq<byte>, offset: int)
    ensures var a := Inspected(file, offset);
            && (a.OutOfRange? <==> offset < 0 || offset > |file|)
            && (0 <= offset <= |file| && |file| - offset <= 4096 ==>
                  a == if Text(file[offset..]) then Ok(Page(file[offset..], |file|, false)) else NotText)
            && (0 <= offset && |file| - offset > 4096 ==>
                  var b := file[offset..offset + 4096];
                  if a.Ok? then
                    && a.page.truncated && Text(a.page.content) && a.page.next == offset + |a.page.content|
                    && LongestCut(b, |a.page.content|) && a.page.content == file[offset..a.page.next]
                  else forall k: nat | LongestCut(b, k) :: 0 in b[..k])
  {
    hide ValidUtf8, Trim, LongestCut;
    if 0 <= offset && |file| - offset > 4096 {
      var b := file[offset..offset + 4096];
      assert b[..4096] == b;
      TrimIsLongest(b, 4096);
      var r := Trim(b);
      assert r == b[..|r|] == file[offset..offset + |r|];
      forall k: nat | LongestCut(b, k)
        ensures ValidUtf8(r) ==> k == |r|
      {
        LongestIsOne(b, k, |r|);
      }
    }
  }

  lemma LongestIsOne(b: seq<byte>, k: nat, m: nat)
    requires LongestCut(b, k)
    ensures LongestCut(b, m) ==> k == m
  {
    hide ValidUtf8;
  }

  datatype Whole = Pages(pages: seq<seq<byte>>) | Broken

  lemma {:induction false} TrimMoves(b: seq<byte>)
    ensures |Trim(b)| >= |b| || |Trim(b)| >= LIMIT - 4
  {
    hide ValidUtf8;
    if |b| > LIMIT - 4 {
      TrimMoves(b[..|b| - 1]);
    }
  }

  /** Follow the next offsets until a page is not truncated. */
  function Follow(file: seq<byte>, offset: nat): Whole
    requires offset <= |file|
    decreases |file| - offset
  {
    var a := Inspected(file, offset);
    if !a.Ok? then Broken
    else if !a.page.truncated then Pages([a.page.content])
    else
      TrimMoves(file[offset..offset + LIMIT]);
      match Follow(file, a.page.next)
      case Broken => Broken
      case Pages(rest) => Pages([a.page.content] + rest)
  }

  function Joined(pages: seq<seq<byte>>): seq<byte> {
    if pages == [] then [] else pages[0] + Joined(pages[1..])
  }

  /** Of the prefixes that are tried, the longest valid one is taken. */
  lemma {:induction false} TrimFinds(b: seq<byte>, k: nat)
    requires LIMIT - 4 < k <= |b| && ValidUtf8(b[..k])
    ensures k <= |Trim(b)| && ValidUtf8(Trim(b))
    decreases |b|
  {
    hide ValidUtf8;
    assert b[..|b|] == b;
    if !ValidUtf8(b) {
      assert b[..|b| - 1][..k] == b[..k];
      TrimFinds(b[..|b| - 1], k);
    }
  }

  /** A truncated page of a text is text, and gives back at most three bytes. */
  lemma TextPage(file: seq<byte>, offset: nat)
    requires offset <= |file| && Text(file[offset..])
    ensures Inspected(file, offset).Ok?
    ensures var p := Inspected(file, offset).page;
            && p.next <= |file| && p.content == file[offset..p.next] && Text(p.content) && Text(file[p.next..])
            && (p.truncated ==> LIMIT - 3 <= |p.content| <= LIMIT)
            && (!p.truncated ==> p.next == |file|)
  {
    hide ValidUtf8;
    var s := file[offset..];
    if |s| > LIMIT {
      var k := CutIsNear(s, LIMIT);
      assert s[..LIMIT] == file[offset..offset + LIMIT] && s[..LIMIT][..k] == s[..k];
      TrimFinds(s[..LIMIT], k);
      var b := Trim(s[..LIMIT]);
      assert s == b + s[|b|..] && s[|b|..] == file[offset + |b|..];
      ValidSplits(b, s[|b|..]);
      assert 0 !in b && 0 !in s[|b|..];
    } else {
      assert file[|file|..] == [] && file[offset..|file|] == s;
      Empty();
    }
  }

  lemma Empty()
    ensures Text([])
  {
  }

  /** The first page is text and what follows reads as text, so all of it is text. */
  lemma PageBack(file: seq<byte>, offset: nat)
    requires offset <= |file| && Inspected(file, offset).Ok?
    ensures var p := Inspected(file, offset).page;
            && p.next <= |file| && file[offset..] == p.content + file[p.next..] && Text(p.content)
            && (!p.truncated ==> p.next == |file|)
            && (Text(file[p.next..]) ==> Text(file[offset..]))
  {
    hide ValidUtf8;
    var p := Inspected(file, offset).page;
    assert file[offset..] == p.content + file[p.next..] by {
      if p.truncated {
        var whole := file[offset..offset + LIMIT];
        assert p.content == whole[..|p.content|];
      } else {
        assert file[p.next..] == [];
      }
    }
    if Text(file[p.next..]) {
      ValidJoins(p.content, file[p.next..]);
    }
  }

  /** The pages of a file are exactly the file when it is text, and reading fails when it is not. */
  lemma {:induction false} PagesAreTheFile(file: seq<byte>, offset: nat)
    requires offset <= |file|
    ensures Follow(file, offset).Pages? <==> Text(file[offset..])
    ensures Follow(file, offset).Pages? ==>
              var pages := Follow(file, offset).pages;
              && Joined(pages) == file[offset..] && pages != []
              && (forall i | 0 <= i < |pages| :: Text(pages[i]))
              && (forall i | 0 <= i < |pages| - 1 :: 4093 <= |pages[i]| <= 4096)
              && |pages[|pages| - 1]| <= 4096
    decreases |file| - offset
  {
    hide ValidUtf8, Trim, Text;
    var a := Inspected(file, offset);
    if Text(file[offset..]) {
      TextPage(file, offset);
    }
    if a.Ok? {
      PageBack(file, offset);
      Empty();
      if a.page.truncated {
        TrimMoves(file[offset..offset + LIMIT]);
        PagesAreTheFile(file, a.page.next);
      } else {
        assert file[|file|..] == [];
        assert Joined([a.page.content]) == a.page.content + [];
      }
    }
  }
}
