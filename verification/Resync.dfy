/** Where the packet reader goes on after something that is not a packet, in terms
    of the bytes pushed and the packets delivered. */
module Resync {
  import opened Bytes
  import opened TsFormat
  import opened ReadTs

  /** The four packet starts behind offset n are sync bytes in b. */
  predicate FourSyncs(b: seq<Byte>, n: nat) {
    && n + 752 < |b|
    && b[n + 188] == 0x47 && b[n + 376] == 0x47 && b[n + 564] == 0x47 && b[n + 752] == 0x47
  }

  /** b is resumed at n: it starts with a sync byte, and n is the least offset with
      four packet starts behind it. */
  ghost predicate ResumedAt(b: seq<Byte>, n: nat) {
    && b != [] && b[0] == 0x47
    && FourSyncs(b, n) && forall i: nat :: i < n ==> !FourSyncs(b, i)
  }

  /** b is not resumed at all. */
  ghost predicate Lost(b: seq<Byte>) {
    b != [] && b[0] == 0x47 ==> forall n: nat :: !FourSyncs(b, n)
  }

  lemma {:induction false} FourIsFour(b: seq<Byte>, n: nat)
    ensures FourAfter(b, n) <==> FourSyncs(b, n)
  {
  }

  lemma {:induction false} ResumedOrLost(b: seq<Byte>)
    ensures Lost(b) || exists n: nat :: ResumedAt(b, n)
  {
    LeastFourMeans(b, 0);
    forall n: nat ensures FourAfter(b, n) <==> FourSyncs(b, n) {
      FourIsFour(b, n);
    }
    var r := LeastFour(b, 0);
    assert r.Some? && b[0] == 0x47 ==> ResumedAt(b, r.value);
  }

  lemma {:induction false} SearchFinds(b: seq<Byte>, n: nat)
    requires ResumedAt(b, n)
    ensures AfterSync(b) == b[n..]
  {
    LeastFourMeans(b, 0);
    forall i: nat ensures FourAfter(b, i) <==> FourSyncs(b, i) {
      FourIsFour(b, i);
    }
  }

  lemma {:induction false} SearchFails(b: seq<Byte>)
    requires Lost(b)
    ensures AfterSync(b) == []
  {
    LeastFourMeans(b, 0);
    forall i: nat ensures FourAfter(b, i) <==> FourSyncs(b, i) {
      FourIsFour(b, i);
    }
  }

  // ------------------------------------------------------------------
  // Whole packets
  // ------------------------------------------------------------------

  /** Whole packets, each headed by a sync byte. */
  ghost predicate Whole(s: seq<Byte>) { |s| % TS_SIZE == 0 && Aligned(s) }

  lemma {:induction false} FirstFrame(s: seq<Byte>)
    requires |s| >= TS_SIZE && |s| % TS_SIZE == 0
    ensures Frames(s) == [s[..TS_SIZE]] + Frames(s[TS_SIZE..])
    ensures Whole(s) ==> Whole(s[TS_SIZE..])
  {
    var rest := s[TS_SIZE..];
    var n := |rest| / TS_SIZE;
    assert |s| / TS_SIZE == n + 1;
    forall i | 0 <= i < n
      ensures Frames(s)[i + 1] == Frames(rest)[i]
    {
      assert s[TS_SIZE * (i + 1)..TS_SIZE * (i + 1) + TS_SIZE] == rest[TS_SIZE * i..TS_SIZE * i + TS_SIZE];
    }
    if Whole(s) {
      forall k: nat | TS_SIZE * k < |rest| ensures rest[TS_SIZE * k] == SYNC {
        assert s[TS_SIZE * (k + 1)] == SYNC;
      }
    }
  }

  /** The reader between two packets, with more delivered. */
  ghost predicate Between(f: Framer, g: Framer, more: seq<seq<Byte>>) {
    g.Ok() && g.carry == [] && !g.failed && g.total == f.total && g.delivered == f.delivered + more
  }

  /** Whole packets at the head of what is left of a chunk are delivered. */
  lemma {:induction false} WholeDelivered(f: Framer, head: seq<Byte>, rest: seq<Byte>) returns (g: Framer)
    requires f.Ok() && !f.failed && |f.carry| + |head + rest| <= f.total && head != [] && Whole(f.carry + head)
    ensures Between(f, g, Frames(f.carry + head)) && |rest| <= g.total
    ensures Drain(AcceptAll(), f, head + rest) == Drain(AcceptAll(), g, rest)
    decreases |head|
  {
    var s, n := f.carry + head, TS_SIZE - |f.carry|;
    var buf := head + rest;
    FirstFrame(s);
    assert s[TS_SIZE * 0] == SYNC;
    assert f.carry + buf[..n] == s[..TS_SIZE];
    assert buf[n..] == head[n..] + rest && s[TS_SIZE..] == head[n..];
    g := Turn(AcceptAll(), f, buf).0;
    assert Between(f, g, [s[..TS_SIZE]]);
    if head[n..] == [] {
      assert [] + rest == rest && Frames(s[TS_SIZE..]) == [];
    } else {
      assert [] + head[n..] == head[n..];
      var p := g;
      g := WholeDelivered(p, head[n..], rest);
      assert f.delivered + [s[..TS_SIZE]] + Frames(s[TS_SIZE..]) ==
          f.delivered + ([s[..TS_SIZE]] + Frames(s[TS_SIZE..]));
    }
  }

  lemma {:induction false} WholePart(b: seq<Byte>)
    ensures var head := b[..TS_SIZE * (|b| / TS_SIZE)];
            Frames(head) == Frames(b) && |head| % TS_SIZE == 0 && (Aligned(b) ==> Aligned(head))
  {
    var head := b[..TS_SIZE * (|b| / TS_SIZE)];
    assert |head| / TS_SIZE == |b| / TS_SIZE;
    forall i | 0 <= i < |b| / TS_SIZE
      ensures Frames(head)[i] == Frames(b)[i]
    {
      assert head[TS_SIZE * i..TS_SIZE * i + TS_SIZE] == b[TS_SIZE * i..TS_SIZE * i + TS_SIZE];
    }
    if Aligned(b) {
      forall k: nat | TS_SIZE * k < |head| ensures head[TS_SIZE * k] == SYNC {
        assert b[TS_SIZE * k] == SYNC;
      }
    }
  }

  /** An aligned rest of a chunk is delivered up to its unfinished tail. */
  lemma {:induction false} AlignedDelivered(f: Framer, b: seq<Byte>)
    requires f.Ok() && !f.failed && f.carry == [] && |b| <= f.total && Aligned(b)
    ensures var r := Drain(AcceptAll(), f, b); r.delivered == f.delivered + Frames(b) && r.carry == Tail(b)
  {
    var n := TS_SIZE * (|b| / TS_SIZE);
    var head, tail := b[..n], b[n..];
    assert b == head + tail && tail == Tail(b);
    WholePart(b);
    var g := f;
    if head == [] {
      assert Frames(b) == [] && b == tail;
    } else {
      assert [] + head == head;
      g := WholeDelivered(f, head, tail);
    }
    ShortTail(g, tail);
  }

  lemma {:induction false} ShortTail(g: Framer, tail: seq<Byte>)
    requires g.Ok() && g.carry == [] && !g.failed && |tail| < TS_SIZE && |tail| <= g.total
    ensures var r := Drain(AcceptAll(), g, tail); r.delivered == g.delivered && r.carry == tail
  {
    if tail != [] {
      assert Turn(AcceptAll(), g, tail) == (g.(carry := g.carry + tail), []);
      assert g.carry + tail == tail;
    }
  }

  /** A complete packet without a sync byte: what is left of the chunk is searched. */
  lemma {:induction false} BadSearched(f: Framer, bad: seq<Byte>, rest: seq<Byte>)
    requires f.Ok() && !f.failed && |f.carry| + |bad + rest| <= f.total
    requires |f.carry + bad| == TS_SIZE && (f.carry + bad)[0] != SYNC
    ensures Drain(AcceptAll(), f, bad + rest) == Drain(AcceptAll(), f.(carry := []), AfterSync(rest))
  {
    var buf := bad + rest;
    assert buf[..|bad|] == bad && buf[|bad|..] == rest;
    assert buf != [];
    assert Turn(AcceptAll(), f, buf) == (f.(carry := []), AfterSync(rest));
  }

  /** What a searched rest delivers. */
  lemma {:induction false} SearchedDelivers(f: Framer, rest: seq<Byte>, n: nat)
    requires f.Ok() && !f.failed && f.carry == [] && |rest| <= f.total
    ensures ResumedAt(rest, n) && Aligned(rest[n..]) ==>
              var r := Drain(AcceptAll(), f, AfterSync(rest));
              r.delivered == f.delivered + Frames(rest[n..]) && r.carry == Tail(rest[n..])
    ensures Lost(rest) ==>
              var r := Drain(AcceptAll(), f, AfterSync(rest)); r.delivered == f.delivered && r.carry == []
  {
    if ResumedAt(rest, n) && Aligned(rest[n..]) {
      SearchFinds(rest, n);
      AlignedDelivered(f, rest[n..]);
    }
    if Lost(rest) {
      SearchFails(rest);
    }
  }

  // ------------------------------------------------------------------
  // What a chunk delivers
  // ------------------------------------------------------------------

  /** What is delivered of one chunk from a reader on. */
  ghost predicate Delivers(f: Framer, chunk: seq<Byte>, packets: seq<seq<Byte>>, carry: seq<Byte>)
    requires f.Ok()
  {
    var r := Push(AcceptAll(), f, chunk);
    r.delivered == f.delivered + packets && r.carry == carry
  }

  /** Good packets and a bad one are read; then the rest is searched. */
  lemma {:induction false} GoodThenBad(f: Framer, good: seq<Byte>, bad: seq<Byte>, rest: seq<Byte>) returns (g: Framer)
    requires f.Ok() && !f.failed && good != [] && Whole(f.carry + good) && |bad| == TS_SIZE && bad[0] != 0x47
    ensures g.Ok() && g.carry == [] && !g.failed && g.delivered == f.delivered + Frames(f.carry + good)
            && |rest| <= g.total
    ensures Push(AcceptAll(), f, good + (bad + rest)) == Drain(AcceptAll(), g, AfterSync(rest))
  {
    var chunk := good + (bad + rest);
    var f0 := f.(total := f.total + |chunk|);
    assert (f.carry + good)[TS_SIZE * 0] == SYNC;
    assert f.carry == [] ==> f.carry + good == good && chunk[0] == good[0];
    PushDrains(AcceptAll(), f, chunk, f0, chunk);
    g := WholeDelivered(f0, good, bad + rest);
    assert [] + bad == bad;
    BadSearched(g, bad, rest);
    assert g.(carry := []) == g;
  }

  /** A chunk that completes whole packets (good, with what was carried), then a
      packet without a sync byte, then has some rest. Nothing of the bad packet is
      delivered. When the rest is resumed at n, and aligned from there, exactly its
      frames from n on follow; when it is not resumed, nothing of it does. */
  lemma {:induction false} AfterBadPacket(f: Framer, good: seq<Byte>, bad: seq<Byte>, rest: seq<Byte>, n: nat)
    requires f.Ok() && !f.failed && good != [] && Whole(f.carry + good) && |bad| == TS_SIZE && bad[0] != 0x47
    ensures ResumedAt(rest, n) && Aligned(rest[n..]) ==>
              Delivers(f, good + (bad + rest), Frames(f.carry + good) + Frames(rest[n..]), Tail(rest[n..]))
    ensures Lost(rest) ==> Delivers(f, good + (bad + rest), Frames(f.carry + good), [])
  {
    var g := GoodThenBad(f, good, bad, rest);
    SearchedDelivers(g, rest, n);
    if ResumedAt(rest, n) {
      Joins(f.delivered, Frames(f.carry + good), Frames(rest[n..]));
    }
  }

  lemma {:induction false} Joins<T>(a: seq<T>, b: seq<T>, c: seq<T>)
    ensures a + b + c == a + (b + c)
  {
  }

  /** The same when the packet under way turns out to be a bad one. */
  lemma {:induction false} AfterBadCarry(f: Framer, bad: seq<Byte>, rest: seq<Byte>, n: nat)
    requires f.Ok() && !f.failed && f.carry != [] && |f.carry + bad| == TS_SIZE && f.carry[0] != 0x47
    ensures ResumedAt(rest, n) && Aligned(rest[n..]) ==> Delivers(f, bad + rest, Frames(rest[n..]), Tail(rest[n..]))
    ensures Lost(rest) ==> Delivers(f, bad + rest, [], [])
  {
    var chunk := bad + rest;
    var f0 := f.(total := f.total + |chunk|);
    PushDrains(AcceptAll(), f, chunk, f0, chunk);
    assert (f.carry + bad)[0] == f.carry[0];
    BadSearched(f0, bad, rest);
    SearchedDelivers(f0.(carry := []), rest, n);
    assert f.delivered + [] == f.delivered;
  }

  /** A chunk that starts a packet is read from its head when that is a sync byte;
      any other is not read at all, because the search looks at the same head. */
  lemma {:induction false} AtEntry(f: Framer, chunk: seq<Byte>)
    requires f.Ok() && !f.failed && f.carry == []
    ensures chunk != [] && chunk[0] != 0x47 ==> Delivers(f, chunk, [], [])
    ensures Aligned(chunk) ==> Delivers(f, chunk, Frames(chunk), Tail(chunk))
  {
    var f0 := f.(total := f.total + |chunk|);
    assert f.delivered + [] == f.delivered;
    if chunk != [] && chunk[0] != 0x47 {
      SearchFails(chunk);
      PushDrains(AcceptAll(), f, chunk, f0, []);
    }
    if Aligned(chunk) {
      assert chunk != [] ==> chunk[TS_SIZE * 0] == SYNC;
      PushDrains(AcceptAll(), f, chunk, f0, chunk);
      AlignedDelivered(f0, chunk);
    }
  }

  /** The reader does resume: a good packet, a bad one, five good ones. */
  lemma {:induction false} ResumesAtOnce(f: Framer, good: seq<Byte>, bad: seq<Byte>, rest: seq<Byte>)
    requires f.Ok() && !f.failed && f.carry == [] && |good| == TS_SIZE && good[0] == 0x47
    requires |bad| == TS_SIZE && bad[0] != 0x47 && Aligned(rest) && |rest| >= 5 * TS_SIZE
    ensures Delivers(f, good + (bad + rest), [good] + Frames(rest), Tail(rest))
  {
    assert rest[TS_SIZE * 0] == 0x47 && rest[TS_SIZE * 1] == 0x47 && rest[TS_SIZE * 2] == 0x47;
    assert rest[TS_SIZE * 3] == 0x47 && rest[TS_SIZE * 4] == 0x47;
    assert ResumedAt(rest, 0) && rest[0..] == rest;
    assert [] + good == good && good[TS_SIZE..] == [] && good[..TS_SIZE] == good;
    FirstFrame(good);
    AfterBadPacket(f, good, bad, rest, 0);
  }

  // ------------------------------------------------------------------
  // Whatever follows
  // ------------------------------------------------------------------

  /** Two readers that differ in what they delivered before. */
  ghost predicate Alike(f: Framer, g: Framer, before: seq<seq<Byte>>) {
    f.Ok() && g.Ok() && f.carry == g.carry && !f.failed && !g.failed && f.delivered == before + g.delivered
  }

  lemma {:induction false} TurnAlike(f: Framer, g: Framer, before: seq<seq<Byte>>, b: seq<Byte>)
    requires Alike(f, g, before) && |f.carry| + |b| <= f.total && |g.carry| + |b| <= g.total && b != []
    ensures var t, u := Turn(AcceptAll(), f, b), Turn(AcceptAll(), g, b); t.1 == u.1 && Alike(t.0, u.0, before)
  {
    if |b| >= TS_SIZE - |f.carry| {
      var packet := f.carry + b[..TS_SIZE - |f.carry|];
      assert before + g.delivered + [packet] == before + (g.delivered + [packet]);
    }
  }

  lemma {:induction false} DrainAlike(f: Framer, g: Framer, before: seq<seq<Byte>>, b: seq<Byte>)
    requires Alike(f, g, before) && |f.carry| + |b| <= f.total && |g.carry| + |b| <= g.total
    ensures Alike(Drain(AcceptAll(), f, b), Drain(AcceptAll(), g, b), before)
    decreases |b|
  {
    if b != [] {
      TurnAlike(f, g, before, b);
      var t, u := Turn(AcceptAll(), f, b), Turn(AcceptAll(), g, b);
      DrainAlike(t.0, u.0, before, t.1);
    }
  }

  /** For any rest, aligned or not, with as many bad packets as may be: resumed at a
      sync byte, the reader goes on as a new one would that is given the rest from
      there on. */
  lemma {:induction false} GoesOnLikeNew(f: Framer, good: seq<Byte>, bad: seq<Byte>, rest: seq<Byte>, n: nat)
    requires f.Ok() && !f.failed && good != [] && Whole(f.carry + good) && |bad| == TS_SIZE && bad[0] != 0x47
    requires ResumedAt(rest, n) && rest[n] == 0x47
    ensures var anew := Push(AcceptAll(), NEW_FRAMER, rest[n..]);
            Delivers(f, good + (bad + rest), Frames(f.carry + good) + anew.delivered, anew.carry)
  {
    var b := rest[n..];
    var g := GoodThenBad(f, good, bad, rest);
    SearchFinds(rest, n);
    var start := NEW_FRAMER.(total := |b|);
    PushDrains(AcceptAll(), NEW_FRAMER, b, start, b);
    assert g.delivered + [] == g.delivered;
    DrainAlike(g, start, g.delivered, b);
    Joins(f.delivered, Frames(f.carry + good), Drain(AcceptAll(), start, b).delivered);
  }
}
