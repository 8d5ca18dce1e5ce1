/** Framing of arbitrary read chunks into transport packets, with carry-over
    between chunks and resynchronisation. */
module ReadTs {
  import opened Bytes
  import opened TsFormat

  // ------------------------------------------------------------------
  // Resynchronisation
  // ------------------------------------------------------------------

  /** The k-th packet start after offset o lies in b and is a sync byte. */
  predicate SyncAt(b: seq<Byte>, o: nat, k: nat) {
    o + TS_SIZE * k < |b| && b[o + TS_SIZE * k] == SYNC
  }

  predicate FourAfter(b: seq<Byte>, o: nat) {
    SyncAt(b, o, 1) && SyncAt(b, o, 2) && SyncAt(b, o, 3) && SyncAt(b, o, 4)
  }

  predicate FiveStarts(b: seq<Byte>, o: nat) {
    SyncAt(b, o, 0) && FourAfter(b, o)
  }

  /** The least offset from o on that is followed by four packet starts. */
  function LeastFour(b: seq<Byte>, o: nat): (r: Option<nat>)
    ensures r.Some? ==> o <= r.value < |b|
    decreases |b| - o
  {
    if o + 4 * TS_SIZE >= |b| then None
    else if FourAfter(b, o) then Some(o)
    else LeastFour(b, o + 1)
  }

  lemma {:induction false} LeastFourMeans(b: seq<Byte>, o: nat)
    ensures match LeastFour(b, o)
            case Some(n) => FourAfter(b, n) && forall i: nat :: o <= i < n ==> !FourAfter(b, i)
            case None => forall i: nat :: o <= i ==> !FourAfter(b, i)
    decreases |b| - o
  {
    if o + 4 * TS_SIZE < |b| && !FourAfter(b, o) {
      LeastFourMeans(b, o + 1);
    }
  }

  /** Where the code resumes in b: it looks at the first byte of b for every
      candidate offset, so the byte at the offset itself is not examined. */
  function SyncPoint(b: seq<Byte>): Option<nat> {
    if b != [] && b[0] == SYNC then LeastFour(b, 0) else None
  }

  /** Where a search that examines all five packet starts resumes. */
  function LeastFive(b: seq<Byte>, o: nat): (r: Option<nat>)
    ensures r.Some? ==> o <= r.value < |b|
    decreases |b| - o
  {
    if o + 4 * TS_SIZE >= |b| then None
    else if FiveStarts(b, o) then Some(o)
    else LeastFive(b, o + 1)
  }

  lemma {:induction false} LeastFiveMeans(b: seq<Byte>, o: nat)
    ensures match LeastFive(b, o)
            case Some(n) => FiveStarts(b, n) && forall i: nat :: o <= i < n ==> !FiveStarts(b, i)
            case None => forall i: nat :: o <= i ==> !FiveStarts(b, i)
    decreases |b| - o
  {
    if o + 4 * TS_SIZE < |b| && !FiveStarts(b, o) {
      LeastFiveMeans(b, o + 1);
    }
  }

  /** The code finds the least five-start offset exactly when the buffer head is
      a sync byte and no earlier offset is followed by four starts alone, or the
      head is none and there is nothing to find. */
  lemma {:induction false} SyncMeetsIntentIff(b: seq<Byte>)
    ensures SyncPoint(b) == LeastFive(b, 0) <==>
            if b != [] && b[0] == SYNC
            then forall o: nat :: FourAfter(b, o) && b[o] != SYNC ==> exists i: nat :: i < o && FourAfter(b, i)
            else forall o: nat :: !FiveStarts(b, o)
  {
    LeastFourMeans(b, 0);
    LeastFiveMeans(b, 0);
    if b != [] && b[0] == SYNC {
      var four, five := LeastFour(b, 0), LeastFive(b, 0);
      if four.Some? && b[four.value] == SYNC {
        assert FiveStarts(b, four.value);
        assert five.Some?;
        assert FourAfter(b, five.value);
      }
      assert five.Some? ==> FourAfter(b, five.value);
    }
  }

  /** Garbage in front of an intact stream: the intended search finds the
      stream, the code discards all of it. */
  lemma {:induction false} SyncDropsGarbledHead() returns (b: seq<Byte>)
    ensures LeastFive(b, 0) == Some(1) && SyncPoint(b) == None
  {
    b := seq(4 * TS_SIZE + 2, i => if i % TS_SIZE == 1 then SYNC else 0);
    assert SyncAt(b, 1, 0) && SyncAt(b, 1, 1) && SyncAt(b, 1, 2) && SyncAt(b, 1, 3) && SyncAt(b, 1, 4);
    assert !SyncAt(b, 0, 0);
    assert LeastFive(b, 0) == LeastFive(b, 1);
  }

  function AfterSync(b: seq<Byte>): (r: seq<Byte>)
    ensures |r| <= |b|
  {
    match SyncPoint(b)
    case None => []
    case Some(o) => b[o..]
  }

  /** The offsets before o are out of the question. */
  ghost predicate Passed(b: seq<Byte>, o: nat) {
    forall i: nat :: i < o ==> !ResumesFrom(b, i)
  }

  ghost predicate ResumesFrom(b: seq<Byte>, o: nat) {
    b != [] && b[0] == SYNC && FourAfter(b, o)
  }

  lemma {:induction false} ResumesAt(b: seq<Byte>, o: nat)
    requires Passed(b, o) && ResumesFrom(b, o)
    ensures AfterSync(b) == b[o..]
  {
    LeastFourMeans(b, 0);
    var r := LeastFour(b, 0);
    assert r.Some? && ResumesFrom(b, r.value);
  }

  lemma {:induction false} NothingToResume(b: seq<Byte>, o: nat)
    requires Passed(b, o) && o + 4 * TS_SIZE >= |b|
    ensures AfterSync(b) == []
  {
    LeastFourMeans(b, 0);
    if SyncPoint(b).Some? {
      assert ResumesFrom(b, SyncPoint(b).value);
    }
  }

  lemma {:induction false} AfterSyncIsSuffix(b: seq<Byte>)
    ensures AfterSync(b) == b[|b| - |AfterSync(b)|..]
  {
  }

  // ------------------------------------------------------------------
  // The framer as a function of what has been pushed
  // ------------------------------------------------------------------

  /** The packet callback: its answer to the last packet of the history. */
  type Handler = seq<seq<Byte>> -> bool

  function AcceptAll(): Handler { (history: seq<seq<Byte>>) => true }

  /** carry is the unfinished packet, total the number of bytes ever pushed and
      starts the position of each delivered packet among them. */
  datatype Framer = Framer(carry: seq<Byte>, delivered: seq<seq<Byte>>, starts: seq<nat>, total: nat, failed: bool)
  {
    predicate Ok() { |carry| < TS_SIZE && |carry| <= total }
  }

  const NEW_FRAMER := Framer([], [], [], 0, false)

  /** A complete packet handed to the callback, `after` bytes before the end. */
  function Deliver(h: Handler, f: Framer, packet: seq<Byte>, after: nat): Framer
    requires after + TS_SIZE <= f.total
  {
    var d := f.delivered + [packet];
    Framer([], d, f.starts + [f.total - after - TS_SIZE], f.total, !h(d))
  }

  /** A packet is complete and rest is left of the chunk: hand it over or resynchronise. */
  function Complete(h: Handler, f: Framer, packet: seq<Byte>, rest: seq<Byte>): (r: (Framer, seq<Byte>))
    requires |packet| == TS_SIZE && |rest| + TS_SIZE <= f.total
    ensures r.0.Ok() && r.0.carry == [] && r.0.total == f.total && |r.1| <= |rest|
  {
    if packet[0] == SYNC then (Deliver(h, f, packet, |rest|), rest) else (f.(carry := []), AfterSync(rest))
  }

  /** One turn of the reading loop: the framer and the bytes left in the chunk. */
  function Turn(h: Handler, f: Framer, buf: seq<Byte>): (r: (Framer, seq<Byte>))
    requires f.Ok() && |f.carry| + |buf| <= f.total && buf != [] && !f.failed
    ensures r.0.Ok() && r.0.total == f.total && |r.0.carry| + |r.1| <= f.total && |r.1| < |buf|
  {
    var n := TS_SIZE - |f.carry|;
    if |buf| < n then (f.(carry := f.carry + buf), [])
    else Complete(h, f, f.carry + buf[..n], buf[n..])
  }

  /** What the loop makes of the bytes left in the chunk. */
  function Drain(h: Handler, f: Framer, buf: seq<Byte>): (r: Framer)
    requires f.Ok() && |f.carry| + |buf| <= f.total
    ensures r.Ok() && r.total == f.total
    decreases |buf|
  {
    if buf == [] || f.failed then f
    else
      var t := Turn(h, f, buf);
      Drain(h, t.0, t.1)
  }

  /** A chunk that starts a packet with another byte is searched first. */
  function Entry(f: Framer, chunk: seq<Byte>): (r: seq<Byte>)
    ensures |r| <= |chunk|
  {
    if f.carry == [] && chunk != [] && chunk[0] != SYNC then AfterSync(chunk) else chunk
  }

  function Push(h: Handler, f: Framer, chunk: seq<Byte>): (r: Framer)
    requires f.Ok()
    ensures r.Ok()
  {
    Drain(h, f.(total := f.total + |chunk|), Entry(f, chunk))
  }

  lemma {:induction false} PushDrains(h: Handler, f: Framer, chunk: seq<Byte>, g: Framer, buf: seq<Byte>)
    requires f.Ok() && g == f.(total := f.total + |chunk|) && buf == Entry(f, chunk)
    ensures g.Ok() && |g.carry| + |buf| <= g.total && Push(h, f, chunk) == Drain(h, g, buf)
  {
  }

  function PushAll(h: Handler, f: Framer, chunks: seq<seq<Byte>>): (r: Framer)
    requires f.Ok()
    ensures r.Ok()
    decreases |chunks|
  {
    if chunks == [] then f else PushAll(h, Push(h, f, chunks[0]), chunks[1..])
  }

  // ------------------------------------------------------------------
  // Window safety: any bytes, any chunking, any number of resyncs
  // ------------------------------------------------------------------

  /** Delivered packets are disjoint, ordered windows of the input up to `end`,
      each headed by a sync byte. */
  ghost predicate Windows(f: Framer, input: seq<Byte>, end: int) {
    && |f.starts| == |f.delivered|
    && (forall i :: 0 <= i < |f.starts| ==>
         f.starts[i] + TS_SIZE <= end && f.starts[i] + TS_SIZE <= |input| &&
         f.delivered[i] == input[f.starts[i]..f.starts[i] + TS_SIZE] && input[f.starts[i]] == SYNC)
    && (forall i, j :: 0 <= i < j < |f.starts| ==> f.starts[i] + TS_SIZE <= f.starts[j])
  }

  /** The handler accepted everything but, after a failure, the last packet. */
  ghost predicate Accepted(h: Handler, d: seq<seq<Byte>>, failed: bool) {
    && (failed ==> d != [] && !h(d))
    && (forall i :: 0 < i <= |d| - (if failed then 1 else 0) ==> h(d[..i]))
  }

  /** State inside the loop: the input is read up to pos and the carry sits
      right before it. */
  ghost predicate Reading(h: Handler, f: Framer, pos: nat, input: seq<Byte>) {
    && f.Ok() && f.total == |input| && |f.carry| <= pos <= |input|
    && f.carry == input[pos - |f.carry|..pos]
    && (f.failed ==> f.carry == [])
    && Windows(f, input, pos - |f.carry|)
    && Accepted(h, f.delivered, f.failed)
  }

  lemma {:induction false} AcceptedSnoc(h: Handler, d: seq<seq<Byte>>, p: seq<Byte>)
    requires Accepted(h, d, false)
    ensures Accepted(h, d + [p], !h(d + [p]))
  {
    var e := d + [p];
    forall i | 0 < i <= |e| - (if !h(e) then 1 else 0)
      ensures h(e[..i])
    {
      assert e[..i] == if i == |e| then e else d[..i];
    }
  }

  lemma {:induction false} DeliverReading(h: Handler, f: Framer, pos: nat, input: seq<Byte>, packet: seq<Byte>)
    requires Reading(h, f, pos, input) && !f.failed
    requires pos - |f.carry| + TS_SIZE <= |input|
    requires packet == input[pos - |f.carry|..pos - |f.carry| + TS_SIZE] && packet[0] == SYNC
    ensures Reading(h, Deliver(h, f, packet, |input| - (pos - |f.carry| + TS_SIZE)), pos - |f.carry| + TS_SIZE, input)
  {
    AcceptedSnoc(h, f.delivered, packet);
  }

  lemma {:induction false} CarryReading(h: Handler, f: Framer, pos: nat, buf: seq<Byte>, input: seq<Byte>)
    requires Reading(h, f, pos, input) && buf == input[pos..] && |f.carry| + |buf| < TS_SIZE && !f.failed
    ensures Reading(h, f.(carry := f.carry + buf), |input|, input)
  {
    assert f.carry + buf == input[pos - |f.carry|..];
  }

  lemma {:induction false} SkipReading(h: Handler, f: Framer, pos: nat, input: seq<Byte>, pos': nat)
    requires Reading(h, f, pos, input) && pos <= pos' <= |input|
    ensures Reading(h, f.(carry := []), pos', input)
  {
  }

  /** The turn's outcome sits where the input is read up to. */
  ghost predicate TurnOk(h: Handler, t: (Framer, seq<Byte>), input: seq<Byte>) {
    |t.1| <= |input| && t.1 == input[|input| - |t.1|..] && Reading(h, t.0, |input| - |t.1|, input)
  }

  lemma {:induction false} TurnDelivers(h: Handler, f: Framer, pos: nat, buf: seq<Byte>, input: seq<Byte>)
    requires Reading(h, f, pos, input) && buf == input[pos..] && buf != [] && !f.failed
    requires |buf| >= TS_SIZE - |f.carry| && (f.carry + buf)[0] == SYNC
    ensures TurnOk(h, Turn(h, f, buf), input)
  {
    var start, n := pos - |f.carry|, TS_SIZE - |f.carry|;
    var packet, rest := f.carry + buf[..n], buf[n..];
    assert packet == input[start..start + TS_SIZE] && rest == input[start + TS_SIZE..];
    DeliverReading(h, f, pos, input, packet);
  }

  lemma {:induction false} TurnResyncs(h: Handler, f: Framer, pos: nat, buf: seq<Byte>, input: seq<Byte>)
    requires Reading(h, f, pos, input) && buf == input[pos..] && buf != [] && !f.failed
    requires |buf| >= TS_SIZE - |f.carry| && (f.carry + buf)[0] != SYNC
    ensures TurnOk(h, Turn(h, f, buf), input)
  {
    var start, n := pos - |f.carry|, TS_SIZE - |f.carry|;
    var packet, rest := f.carry + buf[..n], buf[n..];
    assert packet == input[start..start + TS_SIZE] && rest == input[start + TS_SIZE..];
    AfterSyncIsSuffix(rest);
    SkipReading(h, f, pos, input, |input| - |AfterSync(rest)|);
  }

  lemma {:induction false} TurnReading(h: Handler, f: Framer, pos: nat, buf: seq<Byte>, input: seq<Byte>)
    requires Reading(h, f, pos, input) && buf == input[pos..] && buf != [] && !f.failed
    ensures TurnOk(h, Turn(h, f, buf), input)
  {
    if |buf| < TS_SIZE - |f.carry| {
      CarryReading(h, f, pos, buf, input);
    } else if (f.carry + buf)[0] == SYNC {
      TurnDelivers(h, f, pos, buf, input);
    } else {
      TurnResyncs(h, f, pos, buf, input);
    }
  }

  lemma {:induction false} DrainReading(h: Handler, f: Framer, pos: nat, buf: seq<Byte>, input: seq<Byte>)
    requires Reading(h, f, pos, input) && buf == input[pos..]
    ensures Reading(h, Drain(h, f, buf), |input|, input)
    decreases |buf|
  {
    if buf != [] && !f.failed {
      TurnReading(h, f, pos, buf, input);
      var t := Turn(h, f, buf);
      DrainReading(h, t.0, |input| - |t.1|, t.1, input);
    }
  }

  lemma {:induction false} InputGrows(h: Handler, f: Framer, input: seq<Byte>, chunk: seq<Byte>)
    requires Reading(h, f, |input|, input)
    ensures Reading(h, f.(total := f.total + |chunk|), |input|, input + chunk)
  {
    var all := input + chunk;
    assert f.carry == all[|input| - |f.carry|..|input|];
    forall i | 0 <= i < |f.starts|
      ensures f.delivered[i] == all[f.starts[i]..f.starts[i] + TS_SIZE] && all[f.starts[i]] == SYNC
    {
      assert all[f.starts[i]..f.starts[i] + TS_SIZE] == input[f.starts[i]..f.starts[i] + TS_SIZE];
    }
  }

  lemma {:induction false} EntryReading(h: Handler, f: Framer, input: seq<Byte>, chunk: seq<Byte>) returns (pos: nat)
    requires Reading(h, f, |input|, input)
    ensures pos <= |input + chunk| && Entry(f, chunk) == (input + chunk)[pos..]
    ensures Reading(h, f.(total := f.total + |chunk|), pos, input + chunk)
  {
    InputGrows(h, f, input, chunk);
    AfterSyncIsSuffix(chunk);
    pos := |input| + (|chunk| - |Entry(f, chunk)|);
    assert Entry(f, chunk) == chunk || f.carry == [];
  }

  lemma {:induction false} PushReading(h: Handler, f: Framer, input: seq<Byte>, chunk: seq<Byte>)
    requires Reading(h, f, |input|, input)
    ensures Reading(h, Push(h, f, chunk), |input| + |chunk|, input + chunk)
  {
    var pos := EntryReading(h, f, input, chunk);
    DrainReading(h, f.(total := f.total + |chunk|), pos, Entry(f, chunk), input + chunk);
  }

  /** Window safety for every input, chunking and handler. */
  lemma {:induction false} WindowSafety(h: Handler, f: Framer, input: seq<Byte>, chunks: seq<seq<Byte>>, all: seq<Byte>)
    requires Reading(h, f, |input|, input) && all == input + Flatten(chunks)
    ensures Reading(h, PushAll(h, f, chunks), |all|, all)
    decreases |chunks|
  {
    if chunks == [] {
      assert all == input;
    } else {
      PushReading(h, f, input, chunks[0]);
      assert all == (input + chunks[0]) + Flatten(chunks[1..]);
      WindowSafety(h, Push(h, f, chunks[0]), input + chunks[0], chunks[1..], all);
    }
  }

  lemma {:induction false} ReadingMeans(h: Handler, f: Framer, input: seq<Byte>)
    requires Reading(h, f, |input|, input)
    ensures Windows(f, input, |input|) && Accepted(h, f.delivered, f.failed)
  {
  }

  /** From a new reader on. */
  lemma {:induction false} FreshWindowSafety(h: Handler, chunks: seq<seq<Byte>>, input: seq<Byte>, f: Framer)
    requires input == Flatten(chunks) && f == PushAll(h, NEW_FRAMER, chunks)
    ensures Windows(f, input, |input|) && Accepted(h, f.delivered, f.failed)
  {
    assert input == [] + Flatten(chunks);
    WindowSafety(h, NEW_FRAMER, [], chunks, input);
    ReadingMeans(h, f, input);
  }

  /** Once the handler has refused a packet, no chunk delivers anything more. */
  lemma {:induction false} NothingAfterFailure(h: Handler, f: Framer, chunks: seq<seq<Byte>>)
    requires f.Ok() && f.failed
    ensures var r := PushAll(h, f, chunks);
            r == f.(total := f.total + |Flatten(chunks)|)
    decreases |chunks|
  {
    if chunks != [] {
      NothingAfterFailure(h, Push(h, f, chunks[0]), chunks[1..]);
    }
  }

  // ------------------------------------------------------------------
  // Aligned streams: framing does not depend on the chunking
  // ------------------------------------------------------------------

  ghost predicate Framed(f: Framer, s: seq<Byte>) {
    f.delivered == Frames(s) && f.carry == Tail(s) && !f.failed && f.total >= |s|
  }

  lemma {:induction false} FramesExtend(s: seq<Byte>, more: seq<Byte>)
    requires |Tail(s)| + |more| == TS_SIZE
    ensures Frames(s + more) == Frames(s) + [Tail(s) + more] && Tail(s + more) == []
  {
    var all := s + more;
    var n := |s| / TS_SIZE;
    assert |all| == TS_SIZE * (n + 1);
    assert all[TS_SIZE * n..TS_SIZE * n + TS_SIZE] == Tail(s) + more;
    forall i | 0 <= i < n
      ensures all[TS_SIZE * i..TS_SIZE * i + TS_SIZE] == s[TS_SIZE * i..TS_SIZE * i + TS_SIZE]
    {
    }
  }

  lemma {:induction false} DrainAligned(f: Framer, s: seq<Byte>, buf: seq<Byte>)
    requires Framed(f, s) && f.total == |s| + |buf| && Aligned(s + buf)
    ensures Framed(Drain(AcceptAll(), f, buf), s + buf)
    decreases |buf|
  {
    if buf == [] {
      assert s + buf == s;
    } else if |buf| < TS_SIZE - |f.carry| {
      assert |s + buf| / TS_SIZE == |s| / TS_SIZE;
      assert Frames(s + buf) == Frames(s) by {
        forall i | 0 <= i < |s| / TS_SIZE
          ensures (s + buf)[TS_SIZE * i..TS_SIZE * i + TS_SIZE] == s[TS_SIZE * i..TS_SIZE * i + TS_SIZE]
        {
        }
      }
      assert Tail(s + buf) == Tail(s) + buf;
    } else {
      var n := TS_SIZE - |f.carry|;
      var head, rest := buf[..n], buf[n..];
      FramesExtend(s, head);
      assert (s + buf)[TS_SIZE * (|s| / TS_SIZE)] == (f.carry + head)[0];
      var g := Deliver(AcceptAll(), f, f.carry + head, |rest|);
      assert (s + head) + rest == s + buf;
      DrainAligned(g, s + head, rest);
    }
  }

  /** For an aligned stream and every way of cutting it into chunks, the reader
      delivers exactly the stream's packets and keeps exactly its tail. */
  lemma {:induction false} ChunkingIndependent(f: Framer, s: seq<Byte>, chunks: seq<seq<Byte>>)
    requires Framed(f, s) && f.total == |s| && Aligned(s + Flatten(chunks))
    ensures Framed(PushAll(AcceptAll(), f, chunks), s + Flatten(chunks))
    decreases |chunks|
  {
    if chunks == [] {
      assert s + Flatten(chunks) == s;
    } else {
      var c := chunks[0];
      assert s + c + Flatten(chunks[1..]) == s + Flatten(chunks);
      assert Aligned(s + c) by {
        forall k: nat | TS_SIZE * k < |s + c| ensures (s + c)[TS_SIZE * k] == SYNC {
          assert (s + Flatten(chunks))[TS_SIZE * k] == SYNC;
        }
      }
      if f.carry == [] && c != [] {
        assert (s + c)[TS_SIZE * (|s| / TS_SIZE)] == c[0];
      }
      DrainAligned(f.(total := f.total + |c|), s, c);
      ChunkingIndependent(Push(AcceptAll(), f, c), s + c, chunks[1..]);
    }
  }

  // ------------------------------------------------------------------
  // The reader itself
  // ------------------------------------------------------------------

  class TsReader {
    const handler: Handler
    const packetData: array<Byte>
    var bytesRead: nat
    var buffer: array?<Byte>
    var pos: nat            // where the buffer pointer stands in the chunk
    var remaining: nat
    var errorOccured: bool

    // What the callback has been given, and where it came from.
    var delivered: seq<seq<Byte>>
    ghost var starts: seq<nat>
    ghost var total: nat

    ghost predicate Valid()
      reads this
    {
      packetData.Length == TS_SIZE && bytesRead < TS_SIZE
    }

    ghost function Abs(): Framer
      requires Valid()
      reads this, packetData
    {
      Framer(packetData[..bytesRead], delivered, starts, total, errorOccured)
    }

    ghost predicate InChunk()
      reads this
    {
      buffer != null && buffer != packetData && pos + remaining <= buffer.Length
    }

    ghost function Unread(): seq<Byte>
      requires InChunk()
      reads this, buffer
    {
      buffer[pos..pos + remaining]
    }

    constructor (handler: Handler)
      ensures Valid() && Abs() == NEW_FRAMER && fresh(packetData) && this.handler == handler
    {
      this.handler := handler;
      packetData := new Byte[TS_SIZE](_ => 0);
      bytesRead, pos, remaining := 0, 0, 0;
      buffer := null;
      errorOccured := false;
      delivered, starts, total := [], [], 0;
    }

    method AdvanceBuffer(len: nat)
      requires len <= remaining
      modifies this`pos, this`remaining
      ensures pos == old(pos) + len && remaining == old(remaining) - len
    {
      pos := pos + len;
      remaining := remaining - len;
    }

    /** Looks at the four packet starts after offset; ranOut when one of them
        lies beyond the chunk and none before it failed. */
    method ProbeStarts(offset: nat) returns (noMatch: bool, ranOut: bool)
      requires InChunk() && offset < remaining
      ensures !noMatch && !ranOut ==> FourAfter(Unread(), offset)
      ensures noMatch ==> !FourAfter(Unread(), offset)
      ensures ranOut ==> offset + 4 * TS_SIZE >= remaining
    {
      noMatch, ranOut := false, false;
      var i := 1;
      ghost var b := Unread();
      while i < 5 && !noMatch
        invariant 1 <= i <= 5
        invariant !noMatch ==> forall k :: 1 <= k < i ==> SyncAt(b, offset, k)
        invariant noMatch ==> !FourAfter(b, offset)
      {
        if offset + i * TS_SIZE < remaining {
          assert b[offset + i * TS_SIZE] == buffer[pos + (offset + i * TS_SIZE)];
          if buffer[pos + (offset + i * TS_SIZE)] != SYNC {
            assert !SyncAt(b, offset, i);
            noMatch := true;
          }
        } else {
          ranOut := true;
          return;
        }
        i := i + 1;
      }
    }

    /** Tries one offset: resume here, give up, or go on. */
    method TryOffset(offset: nat, ghost b: seq<Byte>) returns (found: bool, ranOut: bool)
      requires InChunk() && offset < remaining && b == Unread() && Passed(b, offset)
      ensures found ==> AfterSync(b) == b[offset..]
      ensures ranOut ==> AfterSync(b) == []
      ensures !found && !ranOut ==> Passed(b, offset + 1)
    {
      found, ranOut := false, false;
      assert buffer[pos] == b[0];
      if buffer[pos] == SYNC {
        var noMatch;
        noMatch, ranOut := ProbeStarts(offset);
        if ranOut {
          NothingToResume(b, offset);
          return false, true;
        }
        if !noMatch {
          ResumesAt(b, offset);
          return true, false;
        }
      }
    }

    /** Moves to the synchronisation point or drops the chunk. */
    method SyncStream()
      requires Valid() && InChunk()
      modifies this`pos, this`remaining
      ensures InChunk() && Unread() == AfterSync(old(Unread()))
    {
      var offset := 0;
      ghost var b := Unread();
      while offset < remaining
        invariant offset <= remaining
        invariant remaining == old(remaining) && pos == old(pos)
        invariant Passed(b, offset)
      {
        var found, ranOut := TryOffset(offset, b);
        if found {
          AdvanceBuffer(offset);
          assert Unread() == b[offset..];
          return;
        }
        if ranOut {
          remaining := 0;
          return;
        }
        offset := offset + 1;
      }
      NothingToResume(b, offset);
      remaining := 0;
    }

    /** Hands a complete packet to the callback, or resynchronises. */
    method ProcessPacket(ghost f: Framer, ghost packet: seq<Byte>, ghost rest: seq<Byte>)
      requires Valid() && bytesRead == 0 && InChunk() && !errorOccured && remaining + TS_SIZE <= total
      requires Abs() == f.(carry := []) && packetData[..] == packet && Unread() == rest
      modifies this`pos, this`remaining, this`errorOccured, this`delivered, this`starts
      ensures InChunk() && remaining <= old(remaining)
      ensures (Abs(), Unread()) == Complete(handler, f, packet, rest)
    {
      if packetData[0] == SYNC {
        delivered := delivered + [packetData[..]];
        starts := starts + [total - remaining - TS_SIZE];
        if !handler(delivered) {
          errorOccured := true;
        }
      } else {
        SyncStream();
      }
    }

    /** Copies the next n bytes of the chunk behind the carried ones. */
    method Fill(n: nat)
      requires Valid() && InChunk() && n <= remaining && bytesRead + n <= TS_SIZE
      modifies packetData
      ensures packetData[..bytesRead + n] == old(packetData[..bytesRead]) + Unread()[..n]
    {
      ghost var before, unread := packetData[..], Unread();
      forall k | 0 <= k < n {
        packetData[bytesRead + k] := buffer[pos + k];
      }
      forall k | 0 <= k < bytesRead + n
        ensures packetData[k] == if k < bytesRead then before[k] else unread[k - bytesRead]
      {
        if k >= bytesRead {
          var i := k - bytesRead;
          assert packetData[bytesRead + i] == buffer[pos + i] == unread[i];
        }
      }
      assert packetData[..bytesRead + n] == before[..bytesRead] + unread[..n];
    }

    /** The rest of a packet is in the chunk: complete it and hand it over. */
    method CompletePacket()
      requires Valid() && InChunk() && remaining >= TS_SIZE - bytesRead && !errorOccured
      requires bytesRead + remaining <= total
      modifies this`pos, this`remaining, this`bytesRead, this`errorOccured, this`delivered, this`starts, packetData
      ensures Valid() && InChunk() && bytesRead == 0
      ensures remaining <= old(remaining - (TS_SIZE - bytesRead))
      ensures (Abs(), Unread()) == Turn(handler, old(Abs()), old(Unread()))
    {
      ghost var f, buf := Abs(), Unread();
      var n := TS_SIZE - bytesRead;
      Fill(n);
      ghost var packet, rest := f.carry + buf[..n], buf[n..];
      assert packetData[..] == packet;
      AdvanceBuffer(n);
      assert Unread() == rest;
      bytesRead := 0;
      assert Abs() == f.(carry := []);
      ProcessPacket(f, packet, rest);
    }

    /** One turn of the reading loop. */
    method ReadPacketPartial()
      requires Valid() && InChunk() && remaining > 0 && !errorOccured
      requires bytesRead + remaining <= total
      modifies this`pos, this`remaining, this`bytesRead, this`errorOccured, this`delivered, this`starts, packetData
      ensures Valid() && InChunk()
      ensures remaining < old(remaining) && bytesRead + remaining <= total
      ensures (Abs(), Unread()) == Turn(handler, old(Abs()), old(Unread()))
    {
      if remaining < TS_SIZE - bytesRead {
        ghost var buf := Unread();
        Fill(remaining);
        assert buf[..remaining] == buf;
        bytesRead := bytesRead + remaining;
        AdvanceBuffer(remaining);
        assert Unread() == [];
        return;
      }
      CompletePacket();
    }

    /** Takes the chunk and searches it when no packet is under way. */
    method EnterChunk(chunk: array<Byte>, len: nat, ghost f: Framer, ghost c: seq<Byte>)
      requires Valid() && chunk != packetData && len <= chunk.Length && (bytesRead == 0 ==> chunk.Length > 0)
      requires f == Abs() && c == chunk[..len]
      modifies this`buffer, this`pos, this`remaining, this`total
      ensures InChunk() && Abs() == f.(total := f.total + |c|) && Unread() == Entry(f, c)
    {
      buffer := chunk;
      pos, remaining := 0, len;
      total := total + len;
      assert Unread() == c;
      if bytesRead == 0 && buffer[pos] != SYNC {
        SyncStream();
      }
    }

    /** The reading loop. */
    method ReadAll(ghost f: Framer, ghost buf: seq<Byte>)
      requires Valid() && InChunk() && bytesRead + remaining <= total
      requires Abs() == f && Unread() == buf
      modifies this`pos, this`remaining, this`bytesRead, this`errorOccured, this`delivered, this`starts, packetData
      ensures Valid() && bytesRead <= total
      ensures Abs() == Drain(handler, f, buf)
    {
      while remaining > 0 && !errorOccured
        invariant Valid() && InChunk() && bytesRead + remaining <= total
        invariant Drain(handler, Abs(), Unread()) == Drain(handler, f, buf)
        decreases remaining
      {
        ReadPacketPartial();
      }
    }

    /** Consumes the first len bytes of the caller's chunk. With nothing carried
        over the code looks at the first byte even when len is 0. */
    method PushBuffer(chunk: array<Byte>, len: nat)
      requires Valid() && bytesRead <= total && chunk != packetData && len <= chunk.Length
      requires bytesRead == 0 ==> chunk.Length > 0
      modifies this, packetData
      ensures Valid() && bytesRead <= total
      ensures Abs() == Push(handler, old(Abs()), old(chunk[..len]))
    {
      ghost var f, c := Abs(), chunk[..len];
      EnterChunk(chunk, len, f, c);
      ghost var g, buf := Abs(), Unread();
      PushDrains(handler, f, c, g, buf);
      ReadAll(g, buf);
    }
  }
}
