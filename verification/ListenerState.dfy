/** One listener: batch buffer, message queue and flags, as values. Every
    function here is what one region under a mutex does to a listener. */
module ListenerState {
  import opened Bytes
  import opened TsFormat
  import opened PidTable

  const BUFFER_SIZE := 4096
  const BATCH := 3948        // as many whole packets as fit: 21 * 188

  type TsPacket = p: seq<Byte> | |p| == TS_SIZE witness seq(TS_SIZE, _ => 0)

  /** Where the bytes of a DATA message come from: the batch buffer or a
      rewritten table. The code does not store it; it is kept to state properties. */
  datatype Origin = FromStream | FromTable

  datatype Message = Data(bytes: seq<Byte>, origin: Origin) | Drop | Quit | Eos | Continue

  datatype Listener = Listener(
    filter: FilterType, buffer: seq<Byte>, queue: seq<Message>,
    havePat: bool, havePmt: bool, writeError: bool, eos: bool, terminate: bool, running: bool)

  /** A listener as registration leaves it, new or found. */
  function Registration(filter: FilterType): Listener {
    Listener(filter, [], [], false, false, false, false, false, false)
  }

  function Send(l: Listener, m: Message, immediately: bool): Listener {
    l.(queue := if immediately then [m] + l.queue else l.queue + [m])
  }

  function PushPacket(l: Listener, kinds: FilterType, packet: seq<Byte>): Listener {
    var b := if Wants(l.filter, kinds) then l.buffer + packet else l.buffer;
    if |b| >= BATCH then Send(l, Data(b, FromStream), false).(buffer := []) else l.(buffer := b)
  }

  /** A table cut into messages of at most the buffer size. */
  function TableMessages(table: seq<Byte>): seq<Message> {
    if table == [] then []
    else if |table| < BUFFER_SIZE then [Data(table, FromTable)]
    else [Data(table[..BUFFER_SIZE], FromTable)] + TableMessages(table[BUFFER_SIZE..])
  }

  function SendPat(l: Listener, pat: seq<Byte>, count: nat): Listener {
    if count == 0 || l.havePat then l
    else l.(queue := l.queue + TableMessages(pat), havePat := true)
  }

  function SendPmt(l: Listener, pmt: seq<Byte>, count: nat): Listener {
    if count == 0 || !l.havePat || l.havePmt then l
    else l.(queue := l.queue + TableMessages(pmt), havePmt := true)
  }

  /** Registration sends what tables there are. */
  function Register(filter: FilterType, pat: seq<Byte>, patCount: nat, pmt: seq<Byte>, pmtCount: nat): Listener {
    SendPmt(SendPat(Registration(filter), pat, patCount), pmt, pmtCount)
  }

  /** What resetting the reader does to each listener; the batch buffer stays. */
  function ResetListener(l: Listener): Listener {
    l.(queue := [], havePat := false, havePmt := false)
  }

  predicate IsControl(m: Message) { m.Continue? || m.Quit? }

  /** The worker does not have to wait. */
  predicate CanPop(l: Listener) {
    l.queue != [] && (l.running || IsControl(l.queue[0]))
  }

  function WithoutData(q: seq<Message>): seq<Message> {
    if q == [] then [] else (if q[0].Data? then [] else [q[0]]) + WithoutData(q[1..])
  }

  /** What the worker does with a message it took; a failed write of a DATA
      message to the listener's descriptor is remembered. */
  function Process(l: Listener, m: Message, writeFails: bool): Listener {
    match m
    case Data(_, _) => l.(writeError := l.writeError || writeFails)
    case Drop => l.(queue := WithoutData(l.queue))
    case Continue => l.(running := true)
    case Quit => l.(terminate := true)
    case Eos => l.(eos := true)
  }

  // ------------------------------------------------------------------
  // What the messages carry
  // ------------------------------------------------------------------

  function BytesFrom(q: seq<Message>, origin: Origin): seq<Byte> {
    if q == [] then []
    else (if q[0].Data? && q[0].origin == origin then q[0].bytes else []) + BytesFrom(q[1..], origin)
  }

  lemma {:induction false} BytesAppend(a: seq<Message>, b: seq<Message>, origin: Origin)
    ensures BytesFrom(a + b, origin) == BytesFrom(a, origin) + BytesFrom(b, origin)
  {
    if a == [] {
      assert a + b == b;
    } else {
      assert (a + b)[1..] == a[1..] + b;
      BytesAppend(a[1..], b, origin);
    }
  }

  lemma {:induction false} BytesOne(m: Message, origin: Origin)
    ensures BytesFrom([m], origin) == if m.Data? && m.origin == origin then m.bytes else []
  {
  }

  /** The messages of a table carry exactly the table. */
  lemma {:induction false} TableMessagesCarry(table: seq<Byte>)
    ensures BytesFrom(TableMessages(table), FromTable) == table && BytesFrom(TableMessages(table), FromStream) == []
  {
    if |table| >= BUFFER_SIZE {
      var m := Data(table[..BUFFER_SIZE], FromTable);
      TableMessagesCarry(table[BUFFER_SIZE..]);
      assert TableMessages(table)[1..] == TableMessages(table[BUFFER_SIZE..]);
    }
  }

  /** Fits the message's buffer; a batch is a full one. */
  predicate WellSized(m: Message) {
    m.Data? ==> 0 < |m.bytes| <= BUFFER_SIZE && (m.origin == FromStream ==> |m.bytes| == BATCH)
  }

  predicate WholePackets(m: Message) {
    m.Data? ==> |m.bytes| % TS_SIZE == 0
  }

  lemma {:induction false} TableMessagesSized(table: seq<Byte>)
    ensures forall m :: m in TableMessages(table) ==> m.Data? && m.origin == FromTable && WellSized(m)
  {
    if |table| >= BUFFER_SIZE {
      TableMessagesSized(table[BUFFER_SIZE..]);
    }
  }

  /** A table is sent in whole packets exactly when it fits one message: at most
      21 packets. (A table section of 1024 bytes needs six.) */
  lemma {:induction false} TableWholeIff(table: seq<Byte>, count: nat)
    requires |table| == TS_SIZE * count
    ensures (forall m :: m in TableMessages(table) ==> WholePackets(m)) <==> count <= 21
  {
    var ms := TableMessages(table);
    if count > 21 {
      assert ms[0] == Data(table[..BUFFER_SIZE], FromTable) && ms[0] in ms && !WholePackets(ms[0]);
    }
  }

  // ------------------------------------------------------------------
  // Queue shape
  // ------------------------------------------------------------------

  /** Control messages come first. */
  ghost predicate Shape(q: seq<Message>) {
    forall i, j :: 0 <= i < j < |q| && IsControl(q[j]) ==> IsControl(q[i])
  }

  /** A waiting CONTINUE or QUIT is never stuck behind data, whatever the gate. */
  lemma {:induction false} ControlNotStuck(l: Listener, m: Message)
    requires Shape(l.queue) && IsControl(m) && m in l.queue
    ensures CanPop(l) && IsControl(l.queue[0])
  {
    var j :| 0 <= j < |l.queue| && l.queue[j] == m;
    assert j > 0 ==> IsControl(l.queue[0]);
  }

  // ------------------------------------------------------------------
  // Registration and dropped data
  // ------------------------------------------------------------------

  /** A registered listener has forgotten errors, end of stream and termination, does
      not run, holds no data but the tables that are out, and the PMT only behind a
      PAT. */
  lemma {:induction false} RegisterMeans(filter: FilterType, pat: seq<Byte>, patCount: nat, pmt: seq<Byte>,
      pmtCount: nat)
    ensures var l := Register(filter, pat, patCount, pmt, pmtCount);
            && !l.writeError && !l.eos && !l.terminate && !l.running && l.filter == filter && l.buffer == []
            && (l.havePat <==> patCount > 0) && (l.havePmt <==> patCount > 0 && pmtCount > 0)
            && BytesFrom(l.queue, FromStream) == []
            && BytesFrom(l.queue, FromTable) ==
               (if patCount > 0 then pat else []) + (if patCount > 0 && pmtCount > 0 then pmt else [])
            && forall m :: m in l.queue ==> m.Data?
  {
    TableMessagesCarry(pat);
    TableMessagesCarry(pmt);
    TableMessagesSized(pat);
    TableMessagesSized(pmt);
    var p, q := TableMessages(pat), TableMessages(pmt);
    assert [] + p == p;
    BytesAppend(p, q, FromStream);
    BytesAppend(p, q, FromTable);
    assert pat + [] == pat;
  }

  /** Dropping removes exactly the DATA messages and keeps the others in order:
      message by message (below), piece by piece. */
  lemma {:induction false} WithoutDataMeans(a: seq<Message>, b: seq<Message>)
    ensures WithoutData(a + b) == WithoutData(a) + WithoutData(b)
    decreases |a|
  {
    if a == [] {
      assert a + b == b;
    } else {
      assert (a + b)[1..] == a[1..] + b;
      WithoutDataMeans(a[1..], b);
    }
  }

  lemma {:induction false} WithoutDataOne(m: Message)
    ensures WithoutData([m]) == if m.Data? then [] else [m]
  {
    assert [m][1..] == [];
  }
}
