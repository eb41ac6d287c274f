/** The router's loop, over packets that arrive cut in any way. */
module Routing {
  import opened Bytes
  import opened Crc16
  import opened Wire
  import opened TerminalStream

  /** One read of the channel: some bytes, and whether the read also failed. */
  datatype Packet = Packet(b: bytes, failed: bool)

  /** The bytes of the packets, up to the first failure. */
  function Joined(ps: seq<Packet>): bytes {
    if ps == [] then [] else ps[0].b + if ps[0].failed then [] else Joined(ps[1..])
  }

  class PacketReader {
    var packets: seq<Packet>
    var buffered: bytes
    var failed: bool

    constructor (packets: seq<Packet>)
      ensures this.packets == packets && Rest() == Joined(packets)
    {
      this.packets := packets;
      this.buffered := [];
      this.failed := false;
    }

    ghost function Rest(): bytes
      reads this
    {
      buffered + if failed then [] else Joined(packets)
    }

    /** At least one byte and at most `limit`, unless there are none left. */
    method Read(limit: nat) returns (b: bytes)
      requires limit > 0
      modifies this
      ensures old(Rest()) == b + Rest() && |b| <= limit
      ensures b == [] <==> old(Rest()) == []
    {
      while buffered == []
        invariant Rest() == old(Rest())
        decreases |packets|, failed
      {
        if failed || packets == [] {
          return [];
        }
        var p := packets[0];
        packets := packets[1..];
        buffered := p.b;
        failed := p.failed;
      }
      var n := if |buffered| < limit then |buffered| else limit;
      b := buffered[..n];
      buffered := buffered[n..];
    }
  }

  const BUFFER: nat := 4096
  const FLUSH_AT: nat := 32768

  /** A read of the channel that may have to wait: what is displayed by then, of what was taken. */
  datatype Wait = Wait(display: bytes, taken: bytes)

  class Router {
    const source: PacketReader

    /** What a transfer reads, when a header opens one. */
    const eats: Transfers

    /** Bytes read ahead of the loop. */
    var ahead: bytes

    var display: bytes
    var normal: bytes
    var pending: bytes
    var transferring: bool

    /** Every byte the loop has taken, and every moment at which it went to the channel for more. */
    ghost var taken: bytes
    ghost var waits: seq<Wait>

    /** The part of a text that was matched, and the part behind it. */
    ghost var done: bytes
    ghost var piece: bytes

    constructor (source: PacketReader, eats: Transfers)
      ensures this.source == source && this.eats == eats && New()
      ensures display == [] && !transferring
    {
      this.source := source;
      this.eats := eats;
      this.ahead, this.display, this.normal, this.pending, this.transferring := [], [], [], [], false;
      this.taken, this.waits, this.done, this.piece := [], [], [], [];
    }

    predicate New()
      reads this
    {
      ahead == [] && normal == [] && pending == []
    }

    ghost function Rest(): bytes
      reads this`ahead, source
    {
      ahead + source.Rest()
    }

    /** Go to the channel for more. */
    method Fetch()
      requires ahead == []
      modifies this`ahead, this`waits, source
      ensures Rest() == old(Rest()) && (ahead == [] ==> Rest() == [])
      ensures waits == old(waits) + [Wait(display, taken)]
    {
      waits := waits + [Wait(display, taken)];
      ahead := source.Read(BUFFER);
    }

    method ReadByte() returns (b: Option<byte>)
      modifies this`ahead, this`taken, this`waits, source
      ensures b.None? ==> old(Rest()) == [] && Rest() == [] && taken == old(taken)
      ensures b.Some? ==> old(Rest()) == [b.value] + Rest() && taken == old(taken) + [b.value]
      ensures waits == old(waits) + if old(ahead) == [] then [Wait(display, old(taken))] else []
    {
      hide Joined;
      if ahead == [] {
        Fetch();
      }
      if ahead == [] {
        return None;
      }
      b := Some(ahead[0]);
      ghost var whole := Rest();
      taken := taken + [ahead[0]];
      ahead := ahead[1..];
      assert whole == [b.value] + Rest();
    }

    method UnreadByte(b: byte)
      requires taken != []
      modifies this`ahead, this`taken
      ensures Rest() == [b] + old(Rest())
    {
      ahead := [b] + ahead;
      taken := taken[..|taken| - 1];
    }

    /** While it waits for the rest of `n` bytes the display stands still. */
    method ReadFull(n: nat) returns (b: Option<bytes>)
      modifies this`ahead, this`taken, this`waits, source
      ensures b.Some? <==> |old(Rest())| >= n
      ensures b.Some? ==> |b.value| == n && old(Rest()) == b.value + Rest() && taken == old(taken) + b.value
      ensures b.None? ==> Rest() == []
      ensures old(waits) <= waits
      ensures forall i | |old(waits)| <= i < |waits| ::
                && waits[i].display == display && |waits[i].taken| < |old(taken)| + n
                && old(taken) <= waits[i].taken <= old(taken) + old(Rest())
    {
      var got: bytes := [];
      while |got| < n
        invariant |got| <= n && old(Rest()) == got + Rest() && taken == old(taken) + got
        invariant old(waits) <= waits
        invariant forall i | |old(waits)| <= i < |waits| ::
                    && waits[i].display == display && |waits[i].taken| < |old(taken)| + n
                    && old(taken) <= waits[i].taken <= old(taken) + got
      {
        var v := ReadByte();
        if v.None? {
          return None;
        }
        got := got + [v.value];
      }
      b := Some(got);
    }

    method Flush()
      modifies this`display, this`normal
      ensures display == old(display) + old(normal) && normal == []
    {
      if normal != [] {
        display := display + normal;
        normal := [];
      }
    }

    /** The line end after an accepted header; false when the stream ends in it. */
    method SkipLineEnds() returns (ok: bool)
      modifies this`ahead, this`taken, this`waits, source
      ensures ok <==> LineEnds(old(Rest()), 2).Some?
      ensures ok ==> Rest() == LineEnds(old(Rest()), 2).value
    {
      var i := 0;
      while i < 2
        invariant 0 <= i <= 2
        invariant LineEnds(Rest(), 2 - i) == LineEnds(old(Rest()), 2)
      {
        var v := ReadByte();
        if v.None? {
          return false;
        }
        if !IsLineEnd(v.value) {
          UnreadByte(v.value);
          return true;
        }
        i := i + 1;
      }
      ok := true;
    }

    /**
     The transfer itself. For the terminal it is the bytes it takes away, and how many
     may depend on everything the peer goes on to send.
     */
    method Transfer(h: Header)
      modifies this`ahead, this`taken, this`waits, this`transferring, source
      ensures Rest() == Drop(old(Rest()), eats(h, old(Rest()))) && transferring == old(transferring)
    {
      var before := transferring;
      transferring := true;
      var whole: bytes := [];
      var v := ReadByte();
      while v.Some?
        invariant old(Rest()) == whole + (if v.Some? then [v.value] else []) + Rest()
        invariant v.None? ==> Rest() == []
        decreases |Rest()|, v.Some?
      {
        whole := whole + [v.value];
        v := ReadByte();
      }
      assert old(Rest()) == whole;
      ahead := Drop(whole, eats(h, whole));
      transferring := before;
    }

    /** Move bytes to the terminal until what is pending could still become the magic. */
    method Settle()
      requires |pending| <= 4
      modifies this`normal, this`pending
      ensures pending == Tail(old(pending)) && normal + pending == old(normal) + old(pending)
      ensures normal + Shown(eats, pending + Rest()) == old(normal) + Shown(eats, old(pending) + Rest())
    {
      hide Shown, MagicAt;
      while pending != [] && !(pending <= MAGIC)
        invariant |pending| <= 4 && Tail(pending) == Tail(old(pending))
        invariant normal + pending == old(normal) + old(pending)
        invariant normal + Shown(eats, pending + Rest()) == old(normal) + Shown(eats, old(pending) + Rest())
        decreases |pending|
      {
        NotMagic(pending, Rest());
        SkipOne(eats, pending + Rest());
        assert (pending + Rest())[1..] == pending[1..] + Rest();
        normal := normal + [pending[0]];
        pending := pending[1..];
      }
    }

    /**
     A complete magic: tell a header from text, and carry out what it asks for. `flush` is
     false where the loop goes on at once, without looking at what it has to display.
     */
    method Matched() returns (more: bool, flush: bool)
      requires normal == []
      modifies this`ahead, this`taken, this`waits, this`normal, this`transferring, source
      ensures more ==> normal + Shown(eats, Rest()) == Shown(eats, MAGIC + old(Rest()))
      ensures !more ==> normal == Shown(eats, MAGIC + old(Rest()))
      ensures transferring == old(transferring) && (more ==> |Rest()| <= old(|Rest()|))
      ensures |old(Rest())| >= 14 && Candidate(old(Rest())[..14]).None? ==>
                && more && !flush && normal == MAGIC + old(Rest())[..14]
                && taken == old(taken) + old(Rest())[..14] && Rest() == old(Rest())[14..] && old(waits) <= waits
                && forall i | |old(waits)| <= i < |waits| ::
                     && waits[i].display == display && |waits[i].taken| < |old(taken)| + 14
                     && old(taken) <= waits[i].taken <= old(taken) + old(Rest())
    {
      hide Shown, Candidate, LineEnds, Joined;
      ghost var after := Rest();
      MagicFirst(eats, after);
      var raw := ReadFull(14);
      if raw.None? {
        return false, false;
      }
      assert after[..14] == raw.value && after[14..] == Rest();
      var h := Candidate(raw.value);
      if h.None? {
        normal := normal + MAGIC;
        normal := normal + raw.value;
        return true, false;
      }
      ghost var s := Rest();
      var ok := SkipLineEnds();
      if !ok {
        return false, false;
      }
      more, flush := true, OpensTransfer(h.value);
      if flush {
        Transfer(h.value);
      }
      assert normal + Shown(eats, Rest()) == Shown(eats, Rest());
    }

    // ------------------------------------------------------------ one turn

    /** What the terminal is to have in the end. */
    ghost function Goal(): bytes
      reads this, source
    {
      display + (normal + Shown(eats, pending + Rest()))
    }

    /** So far the stream is text, and it is displayed as far as it can be when there is nothing to read. */
    ghost predicate Reading(base: bytes, whole: bytes)
      reads this, source
    {
      && Following(base, whole, display + normal, pending, taken, Rest(), done, piece)
      && (ahead == [] ==> display + Held(taken) == base + taken)
    }

    /** Whenever the loop may have to wait, everything is displayed but what must be held back. */
    ghost predicate Prompt(base: bytes)
      reads this`waits
    {
      forall i | 0 <= i < |waits| :: waits[i].display + Held(waits[i].taken) == base + waits[i].taken
    }

    /** One byte more, and a transfer if it completes a header that opens one. */
    method Turn(ghost base: bytes, ghost whole: bytes) returns (more: bool)
      requires pending <= MAGIC && |pending| < 4
      modifies this, source
      ensures more ==> pending <= MAGIC && |pending| < 4 && Goal() == old(Goal()) && |Rest()| < old(|Rest()|)
      ensures !more ==> display == old(Goal())
      ensures old(Reading(base, whole) && Prompt(base)) ==> Prompt(base) && (more ==> Reading(base, whole))
    {
      hide Shown, Held, Tail, Following, AtMagic;
      ghost var text := Reading(base, whole) && Prompt(base);
      ghost var (shown, was) := (display + normal, pending);
      var b := ReadByte();
      assert text ==> Prompt(base);
      if b.None? {
        ShortIsText(eats, pending);
        assert pending + Rest() == pending;
        normal := normal + pending;
        Flush();
        return false;
      }
      ghost var (before, seen) := (piece, old(taken));
      piece := piece + [b.value];
      Regroup(pending, [b.value], Rest());
      pending := pending + [b.value];
      Settle();
      if text {
        Regroup(display, normal, pending);
        Regroup(display, old(normal), was + [b.value]);
        OneByte(base, whole, shown, was, seen, b.value, Rest(), done, before, display + normal, pending);
      }
      if pending == MAGIC {
        more := OnMagic(base, whole, text);
        return;
      }
      ghost var all := display + normal;
      Regroup(display, normal, Shown(eats, pending + Rest()));
      if ahead == [] || |normal| >= FLUSH_AT {
        Flush();
      }
      Regroup(display, normal, Shown(eats, pending + Rest()));
      assert display + normal == all;
      return true;
    }

    /** The magic is complete. */
    method OnMagic(ghost base: bytes, ghost whole: bytes, ghost text: bool) returns (more: bool)
      requires pending == MAGIC
      requires text ==> AtMagic(base, whole, display + normal, taken, Rest(), done, piece) && Prompt(base)
      modifies this, source
      ensures more ==> pending == [] && Goal() == old(Goal()) && |Rest()| <= old(|Rest()|)
      ensures !more ==> display == old(Goal())
      ensures text ==> Prompt(base) && (more ==> Reading(base, whole))
    {
      hide Shown, Candidate, Held, Tail, Following, AtMagic;
      ghost var (after, seen, earlier) := (Rest(), taken, waits);
      Regroup(display, normal, Shown(eats, MAGIC + Rest()));
      Flush();
      ghost var shown := display;
      assert shown + normal == shown;
      if text {
        Rejects(base, whole, shown, seen, after, done, piece);
      }
      var flush;
      more, flush := Matched();
      pending := [];
      assert [] + Rest() == Rest();
      if text {
        ghost var raw := after[..14];
        WaitsAreHeld(base, whole, shown, seen, after, done, piece, earlier, waits);
        done, piece := done + (piece + raw), [];
      }
      if !more {
        Flush();
        return;
      }
      if flush && (ahead == [] || |normal| >= FLUSH_AT) {
        Regroup(display, normal, Shown(eats, Rest()));
        Flush();
        assert [] + Shown(eats, Rest()) == Shown(eats, Rest());
      }
    }

    /**
     Everything the channel delivers, whatever packets it comes in: in the end the display has
     exactly the terminal's share; and with text, it has everything but what must be held back
     whenever the loop goes to the channel for more.
     */
    method Pump()
      requires New()
      modifies this, source
      ensures display == old(display) + Shown(eats, old(Rest()))
      ensures OnlyText(old(Rest())) ==>
                forall i | 0 <= i < |waits| :: waits[i].display + Held(waits[i].taken) == old(display) + waits[i].taken
    {
      hide Shown, Held, Tail, OnlyText, Following;
      ghost var base, whole := display, Rest();
      taken, waits, done, piece := [], [], [], [];
      assert [] + Rest() == whole && [] + Shown(eats, whole) == Shown(eats, whole);
      if OnlyText(whole) {
        BeginsFollowing(base, whole);
      }
      var more := true;
      while more
        invariant more ==> pending <= MAGIC && |pending| < 4 && Goal() == base + Shown(eats, whole)
        invariant !more ==> display == base + Shown(eats, whole)
        invariant OnlyText(whole) ==> Prompt(base) && (more ==> Reading(base, whole))
        decreases more, |Rest()|
      {
        more := Turn(base, whole);
      }
    }
  }

  lemma Regroup(a: bytes, b: bytes, c: bytes)
    ensures a + (b + c) == a + b + c
  {
  }

  /** Every byte taken of a text was shown, or may be the beginning of a magic. */
  ghost predicate Following(base: bytes, whole: bytes, shown: bytes, pending: bytes, taken: bytes, rest: bytes,
                            done: bytes, piece: bytes) {
    && OnlyText(whole) && taken + rest == whole && done + piece == taken && Closed(done) && FindMagic(piece).None?
    && pending == Tail(piece) && shown + pending == base + taken
  }

  /** The text has come to a magic. */
  ghost predicate AtMagic(base: bytes, whole: bytes, shown: bytes, taken: bytes, rest: bytes, done: bytes, piece: bytes) {
    && OnlyText(whole) && taken + rest == whole && done + piece == taken && Closed(done)
    && |piece| >= 4 && piece == piece[..|piece| - 4] + MAGIC && FindMagic(piece) == Some(|piece| - 4)
    && shown + MAGIC == base + taken
  }

  lemma NothingPending()
    ensures Tail([]) == [] && FindMagic([]).None? && Held([]) == []
  {
  }

  lemma BeginsFollowing(base: bytes, whole: bytes)
    requires OnlyText(whole)
    ensures Following(base, whole, base + [], [], [], whole, [], []) && base + Held([]) == base + []
  {
    hide OnlyText, Closed, Tail, Held, FindMagic;
    NothingPending();
    NothingIsClosed();
    assert [] + whole == whole;
  }

  lemma OneByte(base: bytes, whole: bytes, shown: bytes, pending: bytes, taken: bytes, b: byte, rest: bytes,
                done: bytes, piece: bytes, shown': bytes, pending': bytes)
    requires Following(base, whole, shown, pending, taken, [b] + rest, done, piece)
    requires pending' == Tail(pending + [b]) && shown' + pending' == shown + (pending + [b])
    ensures pending' != MAGIC ==>
              && Following(base, whole, shown', pending', taken + [b], rest, done, piece + [b])
              && Held(taken + [b]) == pending' && shown' + pending' == base + (taken + [b])
    ensures pending' == MAGIC ==> AtMagic(base, whole, shown', taken + [b], rest, done, piece + [b])
  {
    hide OnlyText, Closed, Tail, Held, FindMagic;
    TailGoesOn(piece, b);
    MatchedAtEnd(piece, b);
    Regroup(taken, [b], rest);
    Regroup(done, piece, [b]);
    Regroup(base, taken, [b]);
    Regroup(shown, pending, [b]);
    if pending' != MAGIC {
      HeldTail(done, piece + [b]);
    } else {
      assert (piece + [b])[..|piece + [b]| - 4] == piece[..|piece| - 3];
    }
  }

  /** What a text goes on with behind a magic is rejected, and then held until more arrives. */
  lemma Rejects(base: bytes, whole: bytes, shown: bytes, taken: bytes, rest: bytes, done: bytes, piece: bytes)
    requires AtMagic(base, whole, shown, taken, rest, done, piece)
    ensures |rest| >= 14 && Candidate(rest[..14]).None?
    ensures var raw := rest[..14];
            && Following(base, whole, shown + (MAGIC + raw), [], taken + raw, rest[14..], done + (piece + raw), [])
            && shown + Held(taken + raw) == base + (taken + raw)
  {
    hide OnlyText, Closed, Tail, Held, FindMagic, Candidate;
    var a := piece[..|piece| - 4];
    Regroup(done, a + MAGIC, rest);
    TextRejects(done, a, rest);
    var raw := rest[..14];
    CloseOne(done, a, raw);
    NothingPending();
    Regroup(done, piece, raw);
    Regroup(shown, MAGIC, raw);
    Regroup(base, taken, raw);
    assert rest == raw + rest[14..];
    Regroup(taken, raw, rest[14..]);
    assert taken + raw + [] == taken + raw && shown + (MAGIC + raw) + [] == shown + (MAGIC + raw);
  }

  /** While a candidate is read, the magic and what there is of the candidate are held. */
  lemma WaitsAreHeld(base: bytes, whole: bytes, shown: bytes, taken: bytes, rest: bytes, done: bytes, piece: bytes,
                     earlier: seq<Wait>, waits: seq<Wait>)
    requires AtMagic(base, whole, shown, taken, rest, done, piece)
    requires earlier <= waits && forall i | 0 <= i < |earlier| :: earlier[i].display + Held(earlier[i].taken) == base + earlier[i].taken
    requires forall i | |earlier| <= i < |waits| ::
               waits[i].display == shown && taken <= waits[i].taken && |waits[i].taken| < |taken| + 14
    ensures forall i | 0 <= i < |waits| :: waits[i].display + Held(waits[i].taken) == base + waits[i].taken
  {
    hide Held, Closed, FindMagic, OnlyText;
    var a := piece[..|piece| - 4];
    forall i | |earlier| <= i < |waits|
      ensures waits[i].display + Held(waits[i].taken) == base + waits[i].taken
    {
      OneWait(base, shown, taken, done, a, waits[i].taken);
    }
  }

  lemma OneWait(base: bytes, shown: bytes, taken: bytes, done: bytes, a: bytes, now: bytes)
    requires Closed(done) && FindMagic(a + MAGIC) == Some(|a|) && done + (a + MAGIC) == taken
    requires shown + MAGIC == base + taken && taken <= now && |now| < |taken| + 14
    ensures shown + Held(now) == base + now
  {
    hide *;
    var part := now[|taken|..];
    assert now == taken + part;
    HeldNow(done, a, part);
    BothLonger(shown, MAGIC, base, taken, part);
  }

  lemma HeldNow(done: bytes, a: bytes, part: bytes)
    requires Closed(done) && FindMagic(a + MAGIC) == Some(|a|) && |part| <= 14
    ensures Held(done + (a + MAGIC) + part) == MAGIC + part
  {
    hide Held, Closed, FindMagic, OnlyText;
    var all := a + MAGIC + part;
    assert |all| >= 4;
    ClosedMeans(done, all);
    HeldCandidate(a, part);
    Regroup(done, a + MAGIC, part);
  }

  lemma BothLonger(a: bytes, b: bytes, c: bytes, d: bytes, part: bytes)
    requires a + b == c + d
    ensures a + (b + part) == c + (d + part)
  {
    Regroup(a, b, part);
    Regroup(c, d, part);
  }
}
