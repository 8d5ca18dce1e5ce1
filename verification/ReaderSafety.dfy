/** What holds in every state the reader system can reach, for every
    interleaving of its threads. */
module ReaderSafety {
  import opened Bytes
  import opened TsFormat
  import opened PidTable
  import opened Packetiser
  import opened ListenerState
  import opened ReaderSystem

  /** The bytes of the packets a filter lets through, in order. */
  function WantedBytes(filter: FilterType, arrived: seq<Arrival>): seq<Byte> {
    if arrived == [] then []
    else
      var a := arrived[|arrived| - 1];
      WantedBytes(filter, arrived[..|arrived| - 1]) + if Wants(filter, a.kinds) then a.packet else []
  }

  /** All messages of the epoch: taken by the worker, then waiting. */
  function History(n: Node): seq<Message> { n.popped + n.l.queue }

  // ------------------------------------------------------------------
  // The invariant of one listener
  // ------------------------------------------------------------------

  ghost predicate Batched(b: seq<Byte>) {
    |b| % TS_SIZE == 0 && |b| <= 20 * TS_SIZE
  }

  /** Popped data, queued data and the batch buffer are, in order and without
      loss or repeat, the old buffer and the wanted packets of the epoch. */
  ghost predicate Conserved(n: Node) {
    BytesFrom(History(n), FromStream) + n.l.buffer == n.base + WantedBytes(n.l.filter, n.arrived)
  }

  /** QUIT is only ever sent to a listener taken off the list, and a worker that
      has handled it holds nothing. */
  ghost predicate QuitInv(n: Node) {
    && (n.attached ==> !n.quitSent)
    && (!n.quitSent ==> !n.l.terminate && Quit !in n.l.queue && n.hand != Some(Quit))
    && (n.l.terminate ==> n.hand.None?)
  }

  ghost predicate NodeInv(n: Node) {
    && Batched(n.l.buffer) && Batched(n.base)
    && Conserved(n)
    && Shape(n.l.queue)
    && (forall m :: m in History(n) ==> WellSized(m) && !m.Drop?)
    && n.hand != Some(Drop)
    && QuitInv(n)
  }

  // ------------------------------------------------------------------
  // The invariant of the tables
  // ------------------------------------------------------------------

  ghost predicate SharedInv(c: Core) {
    && (c.pat.count > 0 ==> |c.pat.data| == TS_SIZE * c.pat.count && c.pat.done)
    && (c.pmt.count > 0 ==> |c.pmt.data| == TS_SIZE * c.pmt.count && c.pmt.done)
    && (c.pmt.count > 0 && c.pat.count == 0 ==> c.early)
    && match c.pc
       case Idle => true
       case PatData(b, n) => |b| == TS_SIZE * n && !c.pat.done
       case PatCount(n) => |c.pat.data| == TS_SIZE * n && !c.pat.done
       case PatBroadcast => c.pat.count > 0
       case PmtData(b, n, _) => |b| == TS_SIZE * n && !c.pmt.done && (c.pat.count == 0 ==> c.early)
       case PmtCount(n, _) => |c.pmt.data| == TS_SIZE * n && !c.pmt.done && (c.pat.count == 0 ==> c.early)
       case PmtBroadcast => c.pat.count == 0 ==> c.early
  }

  /** The table bytes given to a listener in this epoch are the PAT and then the
      PMT, each at most once, and who has been given which. */
  ghost predicate TablesInv(c: Core, n: Node) {
    && BytesFrom(History(n), FromTable) ==
       (if n.l.havePat then c.pat.data else []) + (if n.l.havePmt then c.pmt.data else [])
    && (n.l.havePat ==> c.pat.count > 0)
    && (n.l.havePmt ==> n.l.havePat && c.pmt.count > 0)
    && (!c.pc.PatBroadcast? && c.pat.count > 0 ==> n.l.havePat)
    && (!c.pc.PmtBroadcast? ==> (n.l.havePmt <==> c.pmt.count > 0 && !n.missed))
    && (n.missed ==> c.pmt.count > 0 && c.early && !n.l.havePmt)
    && (n.missed && c.pc.PmtBroadcast? ==> c.pat.count == 0)
  }

  ghost predicate NodesInv(c: Core, nodes: map<nat, Node>) {
    forall id :: id in nodes ==> NodeInv(nodes[id]) && (nodes[id].attached ==> TablesInv(c, nodes[id]))
  }

  ghost predicate Inv(s: Sys) {
    SharedInv(s.core) && NodesInv(s.core, s.nodes)
  }

  // ------------------------------------------------------------------
  // Queue operations
  // ------------------------------------------------------------------

  lemma {:induction false} TailPush(n: Node, ms: seq<Message>, origin: Origin)
    ensures BytesFrom(n.popped + (n.l.queue + ms), origin) == BytesFrom(History(n), origin) + BytesFrom(ms, origin)
  {
    assert n.popped + (n.l.queue + ms) == History(n) + ms;
    BytesAppend(History(n), ms, origin);
  }

  lemma {:induction false} HeadPush(n: Node, m: Message, origin: Origin)
    requires IsControl(m)
    ensures BytesFrom(n.popped + ([m] + n.l.queue), origin) == BytesFrom(History(n), origin)
  {
    var queued := BytesFrom(n.l.queue, origin);
    assert BytesFrom([m] + n.l.queue, origin) == queued by {
      BytesAppend([m], n.l.queue, origin);
      BytesOne(m, origin);
      assert [] + queued == queued;
    }
    BytesAppend(n.popped, [m] + n.l.queue, origin);
    BytesAppend(n.popped, n.l.queue, origin);
  }

  /** Sending the tables adds their bytes and nothing else. */
  lemma {:induction false} SendTables(n: Node, table: seq<Byte>)
    requires NodeInv(n)
    ensures var q := n.l.queue + TableMessages(table);
            && Shape(q) && (Quit in q <==> Quit in n.l.queue)
            && BytesFrom(n.popped + q, FromStream) == BytesFrom(History(n), FromStream)
            && BytesFrom(n.popped + q, FromTable) == BytesFrom(History(n), FromTable) + table
            && forall m :: m in n.popped + q ==> WellSized(m) && !m.Drop?
  {
    var ms := TableMessages(table);
    TableMessagesCarry(table);
    TableMessagesSized(table);
    TailPush(n, ms, FromStream);
    TailPush(n, ms, FromTable);
    assert forall i :: 0 <= i < |ms| ==> ms[i] in ms;
    forall m | m in n.popped + (n.l.queue + ms) ensures WellSized(m) && !m.Drop? {
      assert m in History(n) || m in ms;
    }
  }

  /** SendPat and SendPmt keep the listener's invariant. */
  lemma {:induction false} SendPatKeeps(n: Node, table: seq<Byte>, count: nat)
    requires NodeInv(n)
    ensures var n' := n.(l := SendPat(n.l, table, count));
            && NodeInv(n')
            && BytesFrom(History(n'), FromTable) ==
               BytesFrom(History(n), FromTable) + if count > 0 && !n.l.havePat then table else []
  {
    SendTables(n, table);
  }

  lemma {:induction false} SendPmtKeeps(n: Node, table: seq<Byte>, count: nat)
    requires NodeInv(n)
    ensures var n' := n.(l := SendPmt(n.l, table, count));
            && NodeInv(n')
            && BytesFrom(History(n'), FromTable) ==
               BytesFrom(History(n), FromTable) + if count > 0 && n.l.havePat && !n.l.havePmt then table else []
  {
    SendTables(n, table);
  }

  lemma {:induction false} WantedSnoc(filter: FilterType, arrived: seq<Arrival>, a: Arrival)
    ensures WantedBytes(filter, arrived + [a]) ==
            WantedBytes(filter, arrived) + if Wants(filter, a.kinds) then a.packet else []
  {
    var all := arrived + [a];
    assert all[..|all| - 1] == arrived;
  }

  lemma {:induction false} Associate<T>(h: seq<T>, b: seq<T>, base: seq<T>, w: seq<T>, p: seq<T>)
    requires h + b == base + w
    ensures h + (b + p) == base + (w + p)
  {
    assert h + (b + p) == (h + b) + p && base + (w + p) == (base + w) + p;
  }

  /** The batch buffer takes up a wanted packet. */
  lemma {:induction false} BufferGrows(n: Node, kinds: FilterType, p: TsPacket)
    requires Conserved(n) && Batched(n.l.buffer)
    ensures var b := if Wants(n.l.filter, kinds) then n.l.buffer + p else n.l.buffer;
            && BytesFrom(History(n), FromStream) + b ==
                 n.base + WantedBytes(n.l.filter, n.arrived + [Arrival(p, kinds)])
            && |b| % TS_SIZE == 0 && |b| <= BATCH
  {
    WantedSnoc(n.l.filter, n.arrived, Arrival(p, kinds));
    var x: seq<Byte> := if Wants(n.l.filter, kinds) then p else [];
    Associate(BytesFrom(History(n), FromStream), n.l.buffer, n.base, WantedBytes(n.l.filter, n.arrived), x);
    assert n.l.buffer + [] == n.l.buffer;
  }

  lemma {:induction false} BatchSent(n: Node, b: seq<Byte>)
    requires NodeInv(n) && |b| == BATCH
    ensures var q := n.l.queue + [Data(b, FromStream)];
            && Shape(q) && (Quit in q <==> Quit in n.l.queue)
            && BytesFrom(n.popped + q, FromStream) == BytesFrom(History(n), FromStream) + b
            && BytesFrom(n.popped + q, FromTable) == BytesFrom(History(n), FromTable)
            && forall m :: m in n.popped + q ==> WellSized(m) && !m.Drop?
  {
    var m := Data(b, FromStream);
    TailPush(n, [m], FromStream);
    TailPush(n, [m], FromTable);
    BytesOne(m, FromStream);
    BytesOne(m, FromTable);
    forall x | x in n.popped + (n.l.queue + [m]) ensures WellSized(x) && !x.Drop? {
      assert x in History(n) || x == m;
    }
  }

  lemma {:induction false} PushPacketKeeps(n: Node, kinds: FilterType, p: TsPacket)
    requires NodeInv(n)
    ensures var n' := n.(l := PushPacket(n.l, kinds, p), arrived := n.arrived + [Arrival(p, kinds)]);
            && NodeInv(n') && BytesFrom(History(n'), FromTable) == BytesFrom(History(n), FromTable)
            && n'.l.havePat == n.l.havePat && n'.l.havePmt == n.l.havePmt
  {
    BufferGrows(n, kinds, p);
    var b := if Wants(n.l.filter, kinds) then n.l.buffer + p else n.l.buffer;
    if |b| >= BATCH {
      BatchSent(n, b);
    }
  }

  lemma {:induction false} TailEosKeeps(n: Node)
    requires NodeInv(n)
    ensures var n' := n.(l := Send(n.l, Eos, false));
            NodeInv(n') && BytesFrom(History(n'), FromTable) == BytesFrom(History(n), FromTable)
  {
    TailPush(n, [Eos], FromStream);
    TailPush(n, [Eos], FromTable);
    BytesOne(Eos, FromStream);
    BytesOne(Eos, FromTable);
  }

  lemma {:induction false} HeadControlKeeps(n: Node, m: Message)
    requires NodeInv(n) && IsControl(m) && (m.Quit? ==> !n.attached && n.quitSent)
    ensures var n' := n.(l := Send(n.l, m, true));
            NodeInv(n') && BytesFrom(History(n'), FromTable) == BytesFrom(History(n), FromTable)
  {
    HeadPush(n, m, FromStream);
    HeadPush(n, m, FromTable);
  }

  lemma {:induction false} PopKeeps(n: Node)
    requires NodeInv(n) && n.l.queue != [] && n.hand.None? && !n.l.terminate
    ensures var n' := n.(l := n.l.(queue := n.l.queue[1..]), hand := Some(n.l.queue[0]),
            popped := n.popped + [n.l.queue[0]]);
            NodeInv(n') && History(n') == History(n)
  {
    var n' := n.(l := n.l.(queue := n.l.queue[1..]), hand := Some(n.l.queue[0]), popped := n.popped + [n.l.queue[0]]);
    assert History(n') == History(n);
    assert n.l.queue[0] in History(n);
  }

  lemma {:induction false} EmptyEpochInv(n: Node, filter: FilterType, missed: bool)
    requires n.attached && QuitInv(n) && n.hand != Some(Drop)
    ensures var n' := NewEpoch(n, Registration(filter), [], missed);
            NodeInv(n') && BytesFrom(History(n'), FromTable) == []
  {
    assert History(NewEpoch(n, Registration(filter), [], missed)) == [];
  }

  lemma {:induction false} RegistrationKeeps(n: Node, filter: FilterType, c: Core, missed: bool)
    requires n.attached && QuitInv(n) && n.hand != Some(Drop)
    ensures var n' := NewEpoch(n, ListenerState.Register(filter, c.pat.data, c.pat.count, c.pmt.data, c.pmt.count),
            [], missed);
            && NodeInv(n')
            && BytesFrom(History(n'), FromTable) ==
               (if n'.l.havePat then c.pat.data else []) + (if n'.l.havePmt then c.pmt.data else [])
            && (n'.l.havePat <==> c.pat.count > 0)
            && (n'.l.havePmt <==> c.pat.count > 0 && c.pmt.count > 0)
  {
    var n0 := NewEpoch(n, Registration(filter), [], missed);
    EmptyEpochInv(n, filter, missed);
    SendPatKeeps(n0, c.pat.data, c.pat.count);
    var n1 := n0.(l := SendPat(n0.l, c.pat.data, c.pat.count));
    assert BytesFrom(History(n1), FromTable) == if n1.l.havePat then c.pat.data else [];
    SendPmtKeeps(n1, c.pmt.data, c.pmt.count);
  }

  // ------------------------------------------------------------------
  // One step
  // ------------------------------------------------------------------

  lemma {:induction false} FieldsKeep(c: Core, e: Event)
    requires SharedInv(c) && (e.For? || CanHappen(c, e))
    ensures SharedInv(Fields(c, e))
  {
    match e
    case PatSection(pid, section) => TableLength(0, section);
    case PmtSection(section, _, _) => TableLength(c.pmtPid, section);
    case _ =>
  }

  lemma {:induction false} PatBroadcastKeeps(c: Core, n: Node)
    requires SharedInv(c) && NodeInv(n) && n.attached && TablesInv(c, n) && c.pc.PatBroadcast?
    ensures var n' := Shared(c, Advance, n); NodeInv(n') && TablesInv(Fields(c, Advance), n')
  {
    SendPatKeeps(n, c.pat.data, c.pat.count);
  }

  lemma {:induction false} PmtBroadcastKeeps(c: Core, n: Node)
    requires SharedInv(c) && NodeInv(n) && n.attached && TablesInv(c, n) && c.pc.PmtBroadcast?
    ensures var n' := Shared(c, Advance, n); NodeInv(n') && TablesInv(Fields(c, Advance), n')
  {
    SendPmtKeeps(n, c.pmt.data, c.pmt.count);
  }

  lemma {:induction false} ResetKeeps(c: Core, n: Node)
    requires SharedInv(c) && NodeInv(n) && n.attached && c.pc.Idle?
    ensures var n' := Shared(c, Reset, n); NodeInv(n') && TablesInv(Fields(c, Reset), n')
  {
    assert History(Shared(c, Reset, n)) == [];
  }

  /** The tables' invariant does not depend on the stream side of a listener. */
  lemma {:induction false} TablesInvMoves(c: Core, n: Node, n': Node)
    requires TablesInv(c, n) && BytesFrom(History(n'), FromTable) == BytesFrom(History(n), FromTable)
    requires n'.l.havePat == n.l.havePat && n'.l.havePmt == n.l.havePmt && n'.missed == n.missed
    ensures TablesInv(c, n')
  {
  }

  lemma {:induction false} PacketKeeps(c: Core, p: TsPacket, n: Node)
    requires NodeInv(n) && n.attached && TablesInv(c, n)
    ensures var n' := Shared(c, Packet(p), n); NodeInv(n') && TablesInv(Fields(c, Packet(p)), n')
  {
    PushPacketKeeps(n, Lookup(c.pids.active, GetPid(p)), p);
    TablesInvMoves(c, n, Shared(c, Packet(p), n));
  }

  lemma {:induction false} EndOfStreamKeeps(c: Core, n: Node)
    requires NodeInv(n) && n.attached && TablesInv(c, n)
    ensures var n' := Shared(c, EndOfStream, n); NodeInv(n') && TablesInv(Fields(c, EndOfStream), n')
  {
    TailEosKeeps(n);
    TablesInvMoves(c, n, Shared(c, EndOfStream, n));
  }

  /** Events that leave the listeners alone. */
  lemma {:induction false} QuietKeeps(c: Core, e: Event, n: Node)
    requires SharedInv(c) && TablesInv(c, n)
    requires e.AddPids? || (e.PatSection? && c.pc.Idle? && !c.pat.done) || (e.PmtSection? && c.pc.Idle? && !c.pmt.done)
             || (e.Advance? && !c.pc.PatBroadcast? && !c.pc.PmtBroadcast?)
    ensures TablesInv(Fields(c, e), n) && Shared(c, e, n) == n
  {
  }

  lemma {:induction false} SharedKeeps(c: Core, e: Event, n: Node)
    requires SharedInv(c) && !e.For? && CanHappen(c, e)
    requires NodeInv(n) && n.attached && TablesInv(c, n)
    ensures var n' := Shared(c, e, n); NodeInv(n') && TablesInv(Fields(c, e), n')
  {
    match e {
      case Packet(p) => PacketKeeps(c, p, n);
      case EndOfStream => EndOfStreamKeeps(c, n);
      case Reset => ResetKeeps(c, n);
      case Advance =>
        if c.pc.PatBroadcast? {
          PatBroadcastKeeps(c, n);
        } else if c.pc.PmtBroadcast? {
          PmtBroadcastKeeps(c, n);
        } else {
          QuietKeeps(c, e, n);
        }
      case _ => QuietKeeps(c, e, n);
    }
  }

  lemma {:induction false} ProcessEffect(l: Listener, m: Message, writeFails: bool)
    requires !m.Drop?
    ensures var l' := Process(l, m, writeFails);
            && l'.queue == l.queue && l'.buffer == l.buffer && l'.filter == l.filter
            && l'.havePat == l.havePat && l'.havePmt == l.havePmt
            && (l'.terminate <==> l.terminate || m.Quit?) && (l'.running <==> l.running || m.Continue?)
  {
  }

  lemma {:induction false} ProcessKeeps(n: Node, writeFails: bool)
    requires NodeInv(n) && n.hand.Some?
    ensures var n' := n.(l := Process(n.l, n.hand.value, writeFails), hand := None);
            NodeInv(n') && History(n') == History(n) && n'.l.havePat == n.l.havePat && n'.l.havePmt == n.l.havePmt
  {
    ProcessEffect(n.l, n.hand.value, writeFails);
    var n' := n.(l := Process(n.l, n.hand.value, writeFails), hand := None);
    assert History(n') == History(n) && Conserved(n');
  }

  lemma {:induction false} PrivateKeeps(c: Core, a: Action, n: Node)
    requires SharedInv(c) && CanAct(n, a) && NodeInv(n)
    requires !a.SetListener? && n.attached ==> TablesInv(c, n)
    ensures var n' := Private(c, a, n); NodeInv(n') && (n'.attached ==> TablesInv(c, n'))
  {
    match a {
      case SetListener(filter) => RegistrationKeeps(n, filter, c, c.pat.count == 0 && c.pmt.count > 0);
      case Run => HeadControlKeeps(n, Continue);
      case Pause => assert History(Private(c, a, n)) == History(n);
      case Unlink =>
      case SendQuit => HeadControlKeeps(n.(quitSent := true), Quit);
      case Pop => PopKeeps(n);
      case Handle(writeFails) => ProcessKeeps(n, writeFails);
    }
  }

  lemma {:induction false} SharedStepKeeps(s: Sys, e: Event)
    requires Inv(s) && Enabled(s, e) && !e.For?
    ensures NodesInv(Fields(s.core, e), NodesAfter(s, e))
  {
    forall id | id in s.nodes
      ensures var n' := Shared(s.core, e, s.nodes[id]);
              NodeInv(n') && (n'.attached ==> TablesInv(Fields(s.core, e), n'))
    {
      if s.nodes[id].attached {
        SharedKeeps(s.core, e, s.nodes[id]);
      }
    }
  }

  lemma {:induction false} PrivateStepKeeps(s: Sys, id: nat, a: Action)
    requires Inv(s) && Enabled(s, For(id, a))
    ensures NodesInv(s.core, NodesAfter(s, For(id, a)))
  {
    PrivateKeeps(s.core, a, if id in s.nodes then s.nodes[id] else FRESH_NODE);
  }

  lemma {:induction false} StepKeeps(s: Sys, e: Event)
    requires Inv(s)
    ensures Inv(Step(s, e))
  {
    if Enabled(s, e) {
      FieldsKeep(s.core, e);
      if e.For? {
        PrivateStepKeeps(s, e.id, e.action);
      } else {
        SharedStepKeeps(s, e);
      }
    }
  }

  /** The invariant holds in every state of every run. */
  lemma {:induction false} EveryRun(s: Sys, es: seq<Event>)
    requires Inv(s)
    ensures Inv(Steps(s, es))
    decreases |es|
  {
    if es != [] {
      StepKeeps(s, es[0]);
      EveryRun(Step(s, es[0]), es[1..]);
    }
  }
}
