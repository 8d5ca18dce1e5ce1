/** The reader with its threads: the data thread (packets and table callbacks),
    callers that register and control listeners, and one worker per listener.
    Every event is one mutex-protected region, or one unlocked write. */
module ReaderSystem {
  import opened Bytes
  import opened TsFormat
  import opened PidTable
  import opened Packetiser
  import opened ListenerState

  datatype Arrival = Arrival(packet: TsPacket, kinds: FilterType)

  /** A listener object, its worker's hand, and the trace of the current epoch:
      base is what the batch buffer held when the epoch began, arrived every
      packet offered since, popped every message the worker took since. missed
      says that the PMT went out while this listener could not take it. */
  datatype Node = Node(
    l: Listener, attached: bool, quitSent: bool, hand: Option<Message>,
    base: seq<Byte>, arrived: seq<Arrival>, popped: seq<Message>, missed: bool)

  /** A rewritten table as shared with other threads. */
  datatype Table = Table(data: seq<Byte>, count: nat, done: bool)

  const NO_TABLE := Table([], 0, false)

  /** Where the data thread is inside a table callback. */
  datatype Pc =
    | Idle
    | PatData(bytes: seq<Byte>, n: nat)
    | PatCount(n: nat)
    | PatBroadcast
    | PmtData(bytes: seq<Byte>, n: nat, regs: seq<(nat, FilterType)>)
    | PmtCount(n: nat, regs: seq<(nat, FilterType)>)
    | PmtBroadcast

  /** What the threads share besides the listeners; early says that a PMT was
      taken up while no PAT was out. */
  datatype Core = Core(
    pids: Pids, pmtPid: nat, pmtAttached: bool, pat: Table, pmt: Table, pc: Pc, early: bool)

  const NEW_CORE := Core(NO_PIDS, 0xffff, false, NO_TABLE, NO_TABLE, Idle, false)

  datatype Sys = Sys(core: Core, nodes: map<nat, Node>)

  const NEW_SYS := Sys(NEW_CORE, map[])

  datatype Event =
    // data thread
    | AddPids(regs: seq<(nat, FilterType)>)
    | PatSection(pmtPid: nat, section: Option<seq<Byte>>)
    | PmtSection(section: Option<seq<Byte>>, streams: seq<Stream>, pcrPid: nat)
    | Advance
    | Packet(packet: TsPacket)
    | EndOfStream
    // the event thread, with the data thread joined
    | Reset
    // callers and the worker of one listener
    | For(id: nat, action: Action)

  datatype Action =
    | SetListener(filter: FilterType)
    | Run
    | Pause
    | Unlink
    | SendQuit
    | Pop
    | Handle(writeFails: bool)

  // ------------------------------------------------------------------
  // Steps
  // ------------------------------------------------------------------

  predicate Enabled(s: Sys, e: Event) {
    if e.For? then if e.id in s.nodes then CanAct(s.nodes[e.id], e.action) else e.action.SetListener?
    else CanHappen(s.core, e)
  }

  predicate CanHappen(c: Core, e: Event)
    requires !e.For?
  {
    match e
    case PatSection(_, _) => c.pc.Idle? && !c.pat.done
    case PmtSection(_, _, _) => c.pc.Idle? && !c.pmt.done && c.pmtAttached
    case Advance => !c.pc.Idle?
    case _ => c.pc.Idle?
  }

  predicate CanAct(n: Node, a: Action) {
    match a
    case SetListener(_) => n.attached
    case Run => n.attached
    case Pause => n.attached
    case Unlink => n.attached
    case SendQuit => !n.attached && !n.quitSent
    case Pop => n.hand.None? && !n.l.terminate && CanPop(n.l)
    case Handle(_) => n.hand.Some?
  }

  function NewEpoch(n: Node, l: Listener, base: seq<Byte>, missed: bool): Node {
    n.(l := l, base := base, arrived := [], popped := [], missed := missed)
  }

  /** What an event of the data thread or a reset does to one listener. */
  function Shared(c: Core, e: Event, n: Node): Node {
    if !n.attached then n
    else match e
      case Packet(p) =>
        var kinds := Lookup(c.pids.active, GetPid(p));
        n.(l := PushPacket(n.l, kinds, p), arrived := n.arrived + [Arrival(p, kinds)])
      case Advance =>
        if c.pc.PatBroadcast? then n.(l := SendPat(n.l, c.pat.data, c.pat.count))
        else if c.pc.PmtBroadcast? then
          n.(l := SendPmt(n.l, c.pmt.data, c.pmt.count), missed := n.missed || (!n.l.havePat && c.pmt.count > 0))
        else n
      case EndOfStream => n.(l := Send(n.l, Eos, false))
      case Reset => NewEpoch(n, ResetListener(n.l), n.l.buffer, false)
      case _ => n
  }

  /** What an action on one listener does to it. */
  function Private(c: Core, a: Action, n: Node): Node
    requires CanAct(n, a)
  {
    match a
    case SetListener(filter) =>
      NewEpoch(n, ListenerState.Register(filter, c.pat.data, c.pat.count, c.pmt.data, c.pmt.count), [],
               c.pat.count == 0 && c.pmt.count > 0)
    case Run => n.(l := Send(n.l, Continue, true))
    case Pause => n.(l := n.l.(running := false))
    case Unlink => n.(attached := false)
    case SendQuit => n.(l := Send(n.l, Quit, true), quitSent := true)
    case Pop => n.(l := n.l.(queue := n.l.queue[1..]), hand := Some(n.l.queue[0]), popped := n.popped + [n.l.queue[0]])
    case Handle(writeFails) => n.(l := Process(n.l, n.hand.value, writeFails), hand := None)
  }

  const FRESH_NODE := Node(Registration({}), true, false, None, [], [], [], false)

  /** The shared fields after an event. */
  function Fields(c: Core, e: Event): Core {
    match e
    case AddPids(regs) => c.(pids := AddAll(c.pids, regs))
    case PatSection(pid, section) =>
      c.(pids := Add(c.pids, pid, {Kind.Pmt}), pmtPid := pid, pmtAttached := true,
         pat := c.pat.(data := []), pc := PatData(TableBytes(0, section), TableCount(section)))
    case PmtSection(section, streams, pcrPid) =>
      c.(pmt := c.pmt.(data := []), early := c.early || c.pat.count == 0,
         pc := PmtData(TableBytes(c.pmtPid, section), TableCount(section), PmtPids(streams, pcrPid)))
    case Advance => (
      match c.pc
      case Idle => c
      case PatData(bytes, n) => c.(pat := c.pat.(data := bytes), pc := PatCount(n))
      case PatCount(n) => if n > 0 then c.(pat := c.pat.(count := n, done := true), pc := PatBroadcast)
                          else c.(pat := c.pat.(count := n), pc := Idle)
      case PatBroadcast => c.(pc := Idle)
      case PmtData(bytes, n, regs) => c.(pmt := c.pmt.(data := bytes), pc := PmtCount(n, regs))
      case PmtCount(n, regs) => c.(pmt := c.pmt.(count := n, done := true), pids := AddAll(c.pids, regs),
          pc := PmtBroadcast)
      case PmtBroadcast => c.(pc := Idle))
    case Reset => c.(pids := NO_PIDS, pmtPid := 0xffff, pmtAttached := false, pat := NO_TABLE, pmt := NO_TABLE,
        early := false)
    case _ => c
  }

  function NodesAfter(s: Sys, e: Event): map<nat, Node>
    requires Enabled(s, e)
  {
    match e
    case For(id, a) => s.nodes[id := Private(s.core, a, if id in s.nodes then s.nodes[id] else FRESH_NODE)]
    case _ => map id | id in s.nodes :: Shared(s.core, e, s.nodes[id])
  }

  /** One step; an event that is not enabled changes nothing. */
  function Step(s: Sys, e: Event): Sys {
    if Enabled(s, e) then Sys(Fields(s.core, e), NodesAfter(s, e)) else s
  }

  function Steps(s: Sys, es: seq<Event>): Sys
    decreases |es|
  {
    if es == [] then s else Steps(Step(s, es[0]), es[1..])
  }
}
