/** From registrations and packets to the bytes of the record file. */
module RecordedStream {
  import opened Bytes
  import opened TsFormat
  import opened PidTable
  import opened ListenerState
  import opened ReaderSystem
  import opened ReaderSafety
  import opened ReaderRuns
  import opened WriteLoops
  import R = RecorderState

  // ------------------------------------------------------------------
  // The kinds of a packet
  // ------------------------------------------------------------------

  /** What an event registers in a state. */
  function Registers(s: Sys, e: Event): seq<(nat, FilterType)> {
    if !Enabled(s, e) then []
    else match e
      case AddPids(regs) => regs
      case PatSection(pid, _) => [(pid, {Kind.Pmt})]
      case Advance => if s.core.pc.PmtCount? then s.core.pc.regs else []
      case _ => []
  }

  /** All registrations since the last reset. */
  function Registrations(es: seq<Event>): seq<(nat, FilterType)> {
    if es == [] then []
    else
      var n := |es| - 1;
      var s := Steps(NEW_SYS, es[..n]);
      (if es[n].Reset? && Enabled(s, es[n]) then [] else Registrations(es[..n])) + Registers(s, es[n])
  }

  lemma {:induction false} AddAllAppend(p: Pids, a: seq<(nat, FilterType)>, b: seq<(nat, FilterType)>)
    ensures AddAll(p, a + b) == AddAll(AddAll(p, a), b)
    decreases |b|
  {
    if b == [] {
      assert a + b == a;
    } else {
      var n := |b| - 1;
      assert (a + b)[..|a + b| - 1] == a + b[..n];
      AddAllAppend(p, a, b[..n]);
    }
  }

  lemma {:induction false} AddAllOne(p: Pids, pid: nat, kinds: FilterType)
    ensures AddAll(p, [(pid, kinds)]) == Add(p, pid, kinds)
  {
    assert [(pid, kinds)][..0] == [];
    assert AddAll(p, []) == p;
  }

  lemma {:induction false} StepRegisters(s: Sys, e: Event)
    ensures Step(s, e).core.pids ==
            AddAll(if e.Reset? && Enabled(s, e) then NO_PIDS else s.core.pids, Registers(s, e))
  {
    if e.PatSection? {
      AddAllOne(s.core.pids, e.pmtPid, {Kind.Pmt});
    }
  }

  lemma {:induction false} PidsAreRegistered(es: seq<Event>)
    ensures Steps(NEW_SYS, es).core.pids == AddAll(NO_PIDS, Registrations(es))
    decreases |es|
  {
    if es != [] {
      var n := |es| - 1;
      var s := Steps(NEW_SYS, es[..n]);
      PidsAreRegistered(es[..n]);
      OneMoreStep(es[..n], es[n]);
      assert es == es[..n] + [es[n]];
      StepRegisters(s, es[n]);
      var kept := if es[n].Reset? && Enabled(s, es[n]) then [] else Registrations(es[..n]);
      AddAllAppend(NO_PIDS, kept, Registers(s, es[n]));
    }
  }

  /** What a PID stands for after es: all that was registered for it since the
      last reset, or OTHER. */
  function KindsAfter(es: seq<Event>, pid: nat): FilterType {
    if Registered(Registrations(es), pid) then KindsOf(Registrations(es), pid) else {Other}
  }

  lemma {:induction false} LookupAfter(es: seq<Event>, pid: nat)
    ensures Lookup(Steps(NEW_SYS, es).core.pids.active, pid) == KindsAfter(es, pid)
  {
    PidsAreRegistered(es);
    LookupMeaning(Registrations(es), pid);
  }

  /** The packets of es, following the run so far, that a filter asks for. */
  function StreamFor(filter: FilterType, so: seq<Event>, es: seq<Event>): seq<Byte>
    decreases |es|
  {
    if es == [] then []
    else
      (if es[0].Packet? && Enabled(Steps(NEW_SYS, so), es[0]) &&
          exists k :: k in filter && k in KindsAfter(so, GetPid(es[0].packet)) && k != Pat && k != Kind.Pmt
       then es[0].packet else [])
      + StreamFor(filter, so + [es[0]], es[1..])
  }

  /** A filter and the kinds of a packet meet in something besides PAT and PMT. */
  lemma {:induction false} WantsMeans(filter: FilterType, kinds: FilterType)
    ensures Wants(filter, kinds) <==> exists k :: k in filter && k in kinds && k != Pat && k != Kind.Pmt
  {
    var both := (filter - {Pat, Kind.Pmt}) * kinds;
    if both != {} {
      var k :| k in both;
      assert k in filter && k in kinds && k != Pat && k != Kind.Pmt;
    }
    if k :| k in filter && k in kinds && k != Pat && k != Kind.Pmt {
      assert k in both;
    }
  }

  /** What one packet adds to a listener's queued and batched stream bytes: itself,
      exactly when some kind other than PAT and PMT is in the filter and among its
      kinds. */
  lemma {:induction false} PacketTaken(l: Listener, kinds: FilterType, p: TsPacket)
    ensures var l' := PushPacket(l, kinds, p);
            BytesFrom(l'.queue, FromStream) + l'.buffer ==
            BytesFrom(l.queue, FromStream) + l.buffer +
              if exists k :: k in l.filter && k in kinds && k != Pat && k != Kind.Pmt then p else []
  {
    WantsMeans(l.filter, kinds);
    var b := if Wants(l.filter, kinds) then l.buffer + p else l.buffer;
    var q := BytesFrom(l.queue, FromStream);
    if |b| >= BATCH {
      BytesAppend(l.queue, [Data(b, FromStream)], FromStream);
      BytesOne(Data(b, FromStream), FromStream);
    }
    assert q + (l.buffer + p) == q + l.buffer + p;
  }

  /** A raw PAT or PMT packet is never batched: a packet whose kinds are within these
      two changes neither batch buffer nor stream bytes. */
  lemma {:induction false} RawTableNotTaken(l: Listener, kinds: FilterType, p: TsPacket)
    requires kinds <= {Pat, Kind.Pmt} && |l.buffer| < BATCH
    ensures PushPacket(l, kinds, p) == l
  {
    WantsMeans(l.filter, kinds);
  }

  lemma {:induction false} WantedAppend(filter: FilterType, a: seq<Arrival>, b: seq<Arrival>)
    ensures WantedBytes(filter, a + b) == WantedBytes(filter, a) + WantedBytes(filter, b)
    decreases |b|
  {
    if b == [] {
      assert a + b == a;
    } else {
      var n := |b| - 1;
      assert (a + b)[..|a + b| - 1] == a + b[..n];
      WantedAppend(filter, a, b[..n]);
    }
  }

  lemma {:induction false} WantedOne(filter: FilterType, a: Arrival)
    ensures WantedBytes(filter, [a]) == if Wants(filter, a.kinds) then a.packet else []
  {
    assert [a][..0] == [];
    assert WantedBytes(filter, []) == [];
  }

  lemma {:induction false} StreamIsWanted(filter: FilterType, so: seq<Event>, es: seq<Event>)
    ensures WantedBytes(filter, ArrivalsOf(Steps(NEW_SYS, so), es)) == StreamFor(filter, so, es)
    decreases |es|
  {
    if es != [] {
      var s := Steps(NEW_SYS, so);
      var first := ArrivalOf(s, es[0]);
      OneMoreStep(so, es[0]);
      StreamIsWanted(filter, so + [es[0]], es[1..]);
      WantedAppend(filter, first, ArrivalsOf(Step(s, es[0]), es[1..]));
      if first != [] {
        LookupAfter(so, GetPid(es[0].packet));
        WantedOne(filter, first[0]);
        WantsMeans(filter, first[0].kinds);
      }
    }
  }

  lemma {:induction false} ArrivalsAppend(s: Sys, es: seq<Event>, e: Event)
    ensures ArrivalsOf(s, es + [e]) == ArrivalsOf(s, es) + ArrivalOf(Steps(s, es), e)
    decreases |es|
  {
    if es == [] {
      assert [] + [e] == [e] && [e][1..] == [];
      assert ArrivalsOf(Step(s, e), []) == [];
      assert ArrivalOf(s, e) + [] == [] + ArrivalOf(s, e);
    } else {
      assert (es + [e])[1..] == es[1..] + [e];
      ArrivalsAppend(Step(s, es[0]), es[1..], e);
    }
  }

  lemma {:induction false} EventWanted(filter: FilterType, so: seq<Event>, e: Event)
    ensures WantedBytes(filter, ArrivalOf(Steps(NEW_SYS, so), e)) ==
            if e.Packet? && Enabled(Steps(NEW_SYS, so), e) &&
               exists k :: k in filter && k in KindsAfter(so, GetPid(e.packet)) && k != Pat && k != Kind.Pmt
            then e.packet else []
  {
    var arrival := ArrivalOf(Steps(NEW_SYS, so), e);
    if arrival != [] {
      LookupAfter(so, GetPid(e.packet));
      WantedOne(filter, arrival[0]);
      WantsMeans(filter, arrival[0].kinds);
    } else {
      assert WantedBytes(filter, []) == [];
    }
  }

  lemma {:induction false} Grows<T>(out: seq<T>, out': seq<T>, held: seq<T>, wanted: seq<T>, more: seq<T>)
    requires out == held + wanted && out' == held + (wanted + more)
    ensures out' == out + more
  {
  }

  lemma {:induction false} EpochPrefix(es: seq<Event>, e: Event, id: nat)
    requires SameEpoch(es + [e], id)
    ensures SameEpoch(es, id)
  {
    assert forall i :: 0 <= i < |es| ==> (es + [e])[i] == es[i];
  }

  lemma {:induction false} StreamGrows(s0: Sys, id: nat, filter: FilterType, es: seq<Event>, e: Event)
    requires Inv(s0) && Enabled(s0, For(id, SetListener(filter))) && SameEpoch(es, id) && SameEpoch(es + [e], id)
    ensures var s := Step(s0, For(id, SetListener(filter)));
            StreamOut(s, es + [e], id) == StreamOut(s, es, id) + WantedBytes(filter, ArrivalOf(Steps(s, es), e))
  {
    var s := Step(s0, For(id, SetListener(filter)));
    var arrivals, arrival := ArrivalsOf(s, es), ArrivalOf(Steps(s, es), e);
    var out, out' := StreamOut(s, es, id), StreamOut(s, es + [e], id);
    assert out == Held(s0, id) + WantedBytes(filter, arrivals) by {
      RegistrationHandedOver(s0, id, filter, es);
    }
    assert out' == Held(s0, id) + (WantedBytes(filter, arrivals) + WantedBytes(filter, arrival)) by {
      RegistrationHandedOver(s0, id, filter, es + [e]);
      ArrivalsAppend(s, es, e);
      WantedAppend(filter, arrivals, arrival);
    }
    Grows(out, out', Held(s0, id), WantedBytes(filter, arrivals), WantedBytes(filter, arrival));
  }

  /** In any run: a listener registers after es1, and es2 follows without a new epoch.
      What it is handed and what remains grows by the next event exactly when that is
      a packet and some kind other than PAT and PMT is both in the filter and among
      what was registered for its PID since the last reset; then by that packet. */
  lemma {:induction false} NextEventOut(es1: seq<Event>, id: nat, filter: FilterType, es2: seq<Event>, e: Event)
    requires Enabled(Steps(NEW_SYS, es1), For(id, SetListener(filter))) && SameEpoch(es2 + [e], id)
    ensures var so := es1 + ([For(id, SetListener(filter))] + es2);
            var s := Step(Steps(NEW_SYS, es1), For(id, SetListener(filter)));
            StreamOut(s, es2 + [e], id) == StreamOut(s, es2, id) +
              if e.Packet? && Enabled(Steps(NEW_SYS, so), e) &&
                 exists k :: k in filter && k in KindsAfter(so, GetPid(e.packet)) && k != Pat && k != Kind.Pmt
              then e.packet else []
  {
    Reachable(es1);
    EpochPrefix(es2, e, id);
    StreamGrows(Steps(NEW_SYS, es1), id, filter, es2, e);
    RunsOn(es1, id, filter, es2);
    EventWanted(filter, es1 + ([For(id, SetListener(filter))] + es2), e);
  }

  /** Raw PAT and PMT packets never reach a listener, and so not the record file. */
  lemma {:induction false} RawTablesNeverOut(es1: seq<Event>, id: nat, filter: FilterType, es2: seq<Event>, p: TsPacket)
    requires Enabled(Steps(NEW_SYS, es1), For(id, SetListener(filter))) && SameEpoch(es2, id)
    requires KindsAfter(es1 + ([For(id, SetListener(filter))] + es2), GetPid(p)) <= {Pat, Kind.Pmt}
    ensures var s := Step(Steps(NEW_SYS, es1), For(id, SetListener(filter)));
            StreamOut(s, es2 + [Packet(p)], id) == StreamOut(s, es2, id)
  {
    assert SameEpoch(es2 + [Packet(p)], id);
    NextEventOut(es1, id, filter, es2, Packet(p));
  }

  // ------------------------------------------------------------------
  // The record file
  // ------------------------------------------------------------------

  function DataBytes(ms: seq<Message>): seq<Byte> {
    if ms == [] then []
    else DataBytes(ms[..|ms| - 1]) + if ms[|ms| - 1].Data? then ms[|ms| - 1].bytes else []
  }

  function Nobody(): R.Answers { R.Answers(false, false, false, None) }

  /** The record callback takes the data of one message after the other; it is
      not called any more once the recording has stopped. */
  function RecordMessages(r: R.Recorder, ms: seq<Message>, answers: seq<seq<WriteAnswer>>, now: int): R.Recorder
    requires |answers| == |ms|
  {
    if ms == [] then r
    else
      var n := |ms| - 1;
      var before := RecordMessages(r, ms[..n], answers[..n], now);
      if ms[n].Data? then R.Apply(before, R.Incoming(ms[n].bytes, answers[n]), now, Nobody()) else before
  }

  /** Every write loop comes to an end. */
  ghost predicate AllReturn(ms: seq<Message>, answers: seq<seq<WriteAnswer>>)
    requires |answers| == |ms|
  {
    forall k :: 0 <= k < |ms| && ms[k].Data? ==> RecordTransfer(|ms[k].bytes|, answers[k], 0).result != Running
  }

  ghost predicate JustStarted(r: R.Recorder) {
    r.status.Recording? && r.listening && r.file == [] && r.size == 0 && !r.broken
  }

  /** Some write loop met an error. */
  ghost predicate SomeFailed(ms: seq<Message>, answers: seq<seq<WriteAnswer>>)
    requires |answers| == |ms|
  {
    exists k :: 0 <= k < |ms| && ms[k].Data? && RecordTransfer(|ms[k].bytes|, answers[k], 0).result == Failed
  }

  lemma {:induction false} SomeFailedLast(ms: seq<Message>, answers: seq<seq<WriteAnswer>>)
    requires |answers| == |ms| && ms != []
    ensures var n := |ms| - 1;
            SomeFailed(ms, answers) <==>
            SomeFailed(ms[..n], answers[..n])
                || (ms[n].Data? && RecordTransfer(|ms[n].bytes|, answers[n], 0).result == Failed)
  {
    var n := |ms| - 1;
    if SomeFailed(ms[..n], answers[..n]) {
      var k :| 0 <= k < n && ms[..n][k].Data?
          && RecordTransfer(|ms[..n][k].bytes|, answers[..n][k], 0).result == Failed;
      assert ms[k].Data? && RecordTransfer(|ms[k].bytes|, answers[k], 0).result == Failed;
    }
    if SomeFailed(ms, answers) {
      var k :| 0 <= k < |ms| && ms[k].Data? && RecordTransfer(|ms[k].bytes|, answers[k], 0).result == Failed;
      assert k < n ==> ms[..n][k].Data? && RecordTransfer(|ms[..n][k].bytes|, answers[..n][k], 0).result == Failed;
    }
  }

  /** From the start of a recording on, the file holds exactly the data of the
      messages; after a write error, exactly when there was one, it holds their
      first bytes and the recorder is left RECORDING without a listener. */
  lemma {:induction false} FileIsData(r: R.Recorder, ms: seq<Message>, answers: seq<seq<WriteAnswer>>, now: int)
    requires |answers| == |ms| && JustStarted(r) && AllReturn(ms, answers)
    ensures var r' := RecordMessages(r, ms, answers, now);
            && r'.status.Recording? && r'.file <= DataBytes(ms)
            && (r'.broken <==> SomeFailed(ms, answers)) && (r'.listening <==> !r'.broken)
            && (!r'.broken ==> r'.file == DataBytes(ms) && r'.size == |r'.file|)
  {
    if ms != [] {
      var n := |ms| - 1;
      FileIsData(r, ms[..n], answers[..n], now);
      SomeFailedLast(ms, answers);
      var before := RecordMessages(r, ms[..n], answers[..n], now);
      if ms[n].Data? && !before.broken {
        var o := RecordTransfer(|ms[n].bytes|, answers[n], 0);
        assert o.result == Done ==> ms[n].bytes[..o.offset] == ms[n].bytes;
      }
    }
  }

  lemma {:induction false} DataHasTwoSources(ms: seq<Message>)
    ensures |DataBytes(ms)| == |BytesFrom(ms, FromStream)| + |BytesFrom(ms, FromTable)|
    decreases |ms|
  {
    if ms != [] {
      var n := |ms| - 1;
      DataHasTwoSources(ms[..n]);
      assert ms == ms[..n] + [ms[n]];
      BytesAppend(ms[..n], [ms[n]], FromStream);
      BytesAppend(ms[..n], [ms[n]], FromTable);
      BytesOne(ms[n], FromStream);
      BytesOne(ms[n], FromTable);
    }
  }

  /** What the record callback is given in a run: the messages its worker hands
      over after the registration of a new listener. */
  function Given(es1: seq<Event>, id: nat, filter: FilterType, es2: seq<Event>): seq<Message> {
    HandledOf(Step(Steps(NEW_SYS, es1), For(id, SetListener(filter))), es2, id)
  }

  function WholeRun(es1: seq<Event>, id: nat, filter: FilterType, es2: seq<Event>): seq<Event> {
    es1 + ([For(id, SetListener(filter))] + es2)
  }

  lemma {:induction false} RunsOn(es1: seq<Event>, id: nat, filter: FilterType, es2: seq<Event>)
    ensures Steps(NEW_SYS, WholeRun(es1, id, filter, es2)) ==
            Steps(Step(Steps(NEW_SYS, es1), For(id, SetListener(filter))), es2)
  {
    var reg := For(id, SetListener(filter));
    StepsAppend(NEW_SYS, es1, [reg] + es2);
    assert ([reg] + es2)[1..] == es2;
  }

  /** The whole way, while the recording runs. A recording registers a new listener
      after es1; es2 is whatever the threads do after that. As long as no write
      failed the file holds exactly the data that was handed over. Its stream part
      is, up to what remains, the packets since the registration that the filter
      asks for, by what was registered for their PIDs when they arrived; the rest
      is a beginning of the PAT and then the PMT. */
  lemma {:induction false} RecordFile(
      es1: seq<Event>, id: nat, filter: FilterType, es2: seq<Event>,
      r: R.Recorder, answers: seq<seq<WriteAnswer>>, now: int)
    requires id !in Steps(NEW_SYS, es1).nodes && SameEpoch(es2, id)
    requires JustStarted(r) && |answers| == |Given(es1, id, filter, es2)|
             && AllReturn(Given(es1, id, filter, es2), answers)
    ensures var t := Steps(NEW_SYS, WholeRun(es1, id, filter, es2));
            var given := Given(es1, id, filter, es2);
            var r' := RecordMessages(r, given, answers, now);
            var stream, table := BytesFrom(given, FromStream), BytesFrom(given, FromTable);
            && r'.file <= DataBytes(given)
            && (!SomeFailed(given, answers) ==> r'.file == DataBytes(given) && r'.size == |r'.file|)
            && |DataBytes(given)| == |stream| + |table|
            && id in t.nodes
            && stream + Remaining(t.nodes[id]) == StreamFor(filter, es1 + [For(id, SetListener(filter))], es2)
            && table <= (if t.nodes[id].l.havePat then t.core.pat.data else [])
                 + (if t.nodes[id].l.havePmt then t.core.pmt.data else [])
  {
    var s0, reg := Steps(NEW_SYS, es1), For(id, SetListener(filter));
    var given := Given(es1, id, filter, es2);
    RunsOn(es1, id, filter, es2);
    FileIsData(r, given, answers, now);
    DataHasTwoSources(given);
    Reachable(es1);
    StepKeeps(s0, reg);
    RegistrationStartsEpoch(s0, id, filter);
    GivenStream(es1, id, filter, es2);
    GivenTables(es1, id, filter, es2);
  }

  lemma {:induction false} GivenStream(es1: seq<Event>, id: nat, filter: FilterType, es2: seq<Event>)
    requires id !in Steps(NEW_SYS, es1).nodes && SameEpoch(es2, id)
    ensures var t := Steps(Step(Steps(NEW_SYS, es1), For(id, SetListener(filter))), es2);
            id in t.nodes &&
            BytesFrom(Given(es1, id, filter, es2), FromStream) + Remaining(t.nodes[id])
            == StreamFor(filter, es1 + [For(id, SetListener(filter))], es2)
  {
    var s0, reg := Steps(NEW_SYS, es1), For(id, SetListener(filter));
    var s := Step(s0, reg);
    Reachable(es1);
    StepKeeps(s0, reg);
    RegistrationStartsEpoch(s0, id, filter);
    RegistrationHandedOver(s0, id, filter, es2);
    StaysInEpoch(s, es2, id);
    OneMoreStep(es1, reg);
    StreamIsWanted(filter, es1 + [reg], es2);
  }

  lemma {:induction false} GivenTables(es1: seq<Event>, id: nat, filter: FilterType, es2: seq<Event>)
    requires id !in Steps(NEW_SYS, es1).nodes && SameEpoch(es2, id)
    ensures var t := Steps(Step(Steps(NEW_SYS, es1), For(id, SetListener(filter))), es2);
            id in t.nodes &&
            BytesFrom(Given(es1, id, filter, es2), FromTable) <=
            (if t.nodes[id].l.havePat then t.core.pat.data else [])
                + (if t.nodes[id].l.havePmt then t.core.pmt.data else [])
  {
    var s0, reg := Steps(NEW_SYS, es1), For(id, SetListener(filter));
    var s := Step(s0, reg);
    Reachable(es1);
    StepKeeps(s0, reg);
    RegistrationStartsEpoch(s0, id, filter);
    EpochTablesHandedOver(s, id, es2);
    var n := Steps(s, es2).nodes[id];
    Beginning(BytesFrom(Given(es1, id, filter, es2), FromTable), BytesFrom(InHand(n), FromTable),
        BytesFrom(n.l.queue, FromTable),
              (if n.l.havePat then Steps(s, es2).core.pat.data else [])
                  + (if n.l.havePmt then Steps(s, es2).core.pmt.data else []));
  }

  lemma {:induction false} Beginning<T>(a: seq<T>, b: seq<T>, c: seq<T>, d: seq<T>)
    requires a + b + c == [] + d
    ensures a <= d
  {
    assert [] + d == d;
    assert (a + b + c)[..|a|] == a;
  }

  // ------------------------------------------------------------------
  // The descriptor of a listener
  // ------------------------------------------------------------------

  /** The data of the messages, each with the answers its write meets. */
  function Writes(ms: seq<Message>, turns: seq<seq<Attempt>>): seq<Write>
    requires |turns| == |ms|
  {
    if ms == [] then []
    else
      var n := |ms| - 1;
      Writes(ms[..n], turns[..n]) + if ms[n].Data? then [Write(ms[n].bytes, turns[n])] else []
  }

  lemma {:induction false} WritesCarry(ms: seq<Message>, turns: seq<seq<Attempt>>)
    requires |turns| == |ms|
    ensures Flatten(DataOf(Writes(ms, turns))) == DataBytes(ms)
  {
    if ms != [] {
      var n := |ms| - 1;
      WritesCarry(ms[..n], turns[..n]);
      var before := Writes(ms[..n], turns[..n]);
      if ms[n].Data? {
        var w := Write(ms[n].bytes, turns[n]);
        assert DataOf(before + [w]) == DataOf(before) + [w.data];
        FlattenSnoc(DataOf(before), w.data);
      } else {
        assert before + [] == before;
      }
    }
  }

  /** The whole way to a descriptor: a new listener registers after es1, es2 follows.
      When no write fails, its descriptor has taken exactly the data handed over if
      and only if no call ended in a zero write; the stream part of that is, up to
      what remains, the wanted packets since the registration. */
  lemma {:induction false} DescriptorStream(
      es1: seq<Event>, id: nat, filter: FilterType, es2: seq<Event>, turns: seq<seq<Attempt>>)
    requires id !in Steps(NEW_SYS, es1).nodes && SameEpoch(es2, id) && |turns| == |Given(es1, id, filter, es2)|
    requires var ws := Writes(Given(es1, id, filter, es2), turns); AllCallsReturn(ws) && BeforeError(ws) == |ws|
    ensures var given := Given(es1, id, filter, es2);
            var ws := Writes(given, turns);
            var t := Steps(NEW_SYS, WholeRun(es1, id, filter, es2));
            && (TakeAll(Descriptor([], false), ws).taken == DataBytes(given) <==>
                forall k :: 0 <= k < |ws| ==> !ws[k].EndsInZeroWrite())
            && id in t.nodes
            && BytesFrom(given, FromStream) + Remaining(t.nodes[id])
               == StreamFor(filter, es1 + [For(id, SetListener(filter))], es2)
  {
    var given := Given(es1, id, filter, es2);
    var ws := Writes(given, turns);
    TakenIffNoZeroWrite(ws);
    WritesCarry(given, turns);
    assert ws[..|ws|] == ws && UpToError(ws) == Flatten(DataOf(ws)) + [];
    assert Flatten(DataOf(ws)) + [] == Flatten(DataOf(ws));
    RunsOn(es1, id, filter, es2);
    GivenStream(es1, id, filter, es2);
  }

  // ------------------------------------------------------------------
  // When the recording is closed
  // ------------------------------------------------------------------

  /** A listener that was taken off the list gets nothing more; what its worker
      still hands over comes from its hand and its queue. */
  lemma {:induction false} DetachedAction(c: Core, a: Action, n: Node)
    requires NodeInv(n) && !n.attached && CanAct(n, a)
    ensures var n' := Private(c, a, n);
            !n'.attached && n'.base == n.base && n'.arrived == n.arrived && n'.l.filter == n.l.filter
  {
    if a.Handle? {
      ProcessEffect(n.l, n.hand.value, a.writeFails);
    }
  }

  lemma {:induction false} DetachedStep(s: Sys, e: Event, id: nat)
    requires Inv(s) && id in s.nodes && !s.nodes[id].attached
    ensures id in Step(s, e).nodes
    ensures var n, n' := s.nodes[id], Step(s, e).nodes[id];
            && !n'.attached && n'.base == n.base && n'.arrived == n.arrived && n'.l.filter == n.l.filter
            && HandsOn(n, n', HandledBy(s, e, id))
  {
    StepHandsOn(s, e, id);
    var n := s.nodes[id];
    assert NodeInv(n);
    if Enabled(s, e) {
      if !e.For? {
        SharedStep(s, e, id);
      } else if e.id == id {
        DetachedAction(s.core, e.action, n);
        PrivateStep(s, id, e.action);
      } else {
        assert Step(s, e).nodes[id] == n;
      }
    } else {
      assert Step(s, e) == s;
    }
  }

  lemma {:induction false} Detached(s: Sys, es: seq<Event>, id: nat)
    requires Inv(s) && id in s.nodes && !s.nodes[id].attached
    ensures id in Steps(s, es).nodes
    ensures var n, n' := s.nodes[id], Steps(s, es).nodes[id];
            && n'.base == n.base && n'.arrived == n.arrived && n'.l.filter == n.l.filter
            && HandsOn(n, n', HandledOf(s, es, id))
    decreases |es|
  {
    if es == [] {
      HandsOnFirst(s.nodes[id]);
    } else {
      var t := Step(s, es[0]);
      DetachedStep(s, es[0], id);
      StepKeeps(s, es[0]);
      Detached(t, es[1..], id);
      HandsOnFurther(s.nodes[id], t.nodes[id], Steps(t, es[1..]).nodes[id], HandledBy(s, es[0], id),
          HandledOf(t, es[1..], id));
    }
  }

  lemma {:induction false} HandledAppend(s: Sys, a: seq<Event>, b: seq<Event>, id: nat)
    ensures HandledOf(s, a + b, id) == HandledOf(s, a, id) + HandledOf(Steps(s, a), b, id)
    decreases |a|
  {
    if a == [] {
      assert a + b == b;
    } else {
      assert (a + b)[1..] == a[1..] + b;
      HandledAppend(Step(s, a[0]), a[1..], b, id);
    }
  }

  lemma {:induction false} HandledFirst(s: Sys, e: Event, es: seq<Event>, id: nat)
    ensures HandledOf(s, [e] + es, id) == HandledBy(s, e, id) + HandledOf(Step(s, e), es, id)
    ensures Steps(s, [e] + es) == Steps(Step(s, e), es)
  {
    assert ([e] + es)[1..] == es;
  }

  /** An epoch, its end by removal, and anything after that. */
  lemma {:induction false} ClosedEpoch(s: Sys, es2: seq<Event>, es3: seq<Event>, id: nat)
    requires Inv(s) && id in s.nodes && s.nodes[id].attached && SameEpoch(es2, id)
    ensures var t := Steps(s, es2 + ([For(id, Unlink)] + es3));
            id in t.nodes && Inv(t)
            && t.nodes[id].base == s.nodes[id].base && t.nodes[id].l.filter == s.nodes[id].l.filter
            && t.nodes[id].arrived == s.nodes[id].arrived + ArrivalsOf(s, es2)
            && HandsOn(s.nodes[id], t.nodes[id], HandledOf(s, es2 + ([For(id, Unlink)] + es3), id))
  {
    var off, u := For(id, Unlink), Steps(s, es2);
    EveryRun(s, es2);
    StaysInEpoch(s, es2, id);
    HandedInEpoch(s, es2, id);
    HandledAppend(s, es2, [off] + es3, id);
    StepsAppend(s, es2, [off] + es3);
    ClosedTail(u, es3, id);
    HandsOnFurther(s.nodes[id], u.nodes[id], Steps(u, [off] + es3).nodes[id], HandledOf(s, es2, id),
        HandledOf(u, [off] + es3, id));
  }

  lemma {:induction false} ClosedTail(u: Sys, es: seq<Event>, id: nat)
    requires Inv(u) && id in u.nodes && u.nodes[id].attached
    ensures var t := Steps(u, [For(id, Unlink)] + es);
            id in t.nodes && Inv(t)
            && t.nodes[id].base == u.nodes[id].base && t.nodes[id].l.filter == u.nodes[id].l.filter
            && t.nodes[id].arrived == u.nodes[id].arrived
            && HandsOn(u.nodes[id], t.nodes[id], HandledOf(u, [For(id, Unlink)] + es, id))
  {
    var off := For(id, Unlink);
    var v := Step(u, off);
    StepKeeps(u, off);
    StepHandsOn(u, off, id);
    EveryRun(v, es);
    Detached(v, es, id);
    HandledFirst(u, off, es, id);
    HandsOnFurther(u.nodes[id], v.nodes[id], Steps(v, es).nodes[id], HandledBy(u, off, id), HandledOf(v, es, id));
  }

  /** From the registration to whatever happens after the listener was taken off
      the list: the stream bytes handed over, and the lost ones that its hand, its
      queue and its batch buffer still hold, are exactly the wanted packets from
      the registration to the removal. */
  lemma {:induction false} ClosedStream(es1: seq<Event>, id: nat, filter: FilterType, es2: seq<Event>, es3: seq<Event>)
    requires id !in Steps(NEW_SYS, es1).nodes && SameEpoch(es2, id)
    ensures var t := Steps(Step(Steps(NEW_SYS, es1), For(id, SetListener(filter))), es2 + ([For(id, Unlink)] + es3));
            id in t.nodes &&
            BytesFrom(Given(es1, id, filter, es2 + ([For(id, Unlink)] + es3)), FromStream) + Remaining(t.nodes[id])
            == StreamFor(filter, es1 + [For(id, SetListener(filter))], es2)
  {
    var s0, reg := Steps(NEW_SYS, es1), For(id, SetListener(filter));
    var s := Step(s0, reg);
    Reachable(es1);
    StepKeeps(s0, reg);
    RegistrationStartsEpoch(s0, id, filter);
    ClosedEpoch(s, es2, es3, id);
    OneMoreStep(es1, reg);
    StreamIsWanted(filter, es1 + [reg], es2);
    var t := Steps(s, es2 + ([For(id, Unlink)] + es3));
    assert [] + ArrivalsOf(s, es2) == ArrivalsOf(s, es2);
    ClosedAccount(s.nodes[id], t.nodes[id], Given(es1, id, filter, es2 + ([For(id, Unlink)] + es3)),
        StreamFor(filter, es1 + [reg], es2));
  }

  lemma {:induction false} ClosedAccount(n0: Node, n: Node, given: seq<Message>, whole: seq<Byte>)
    requires HandsOn(n0, n, given) && n0.popped == [] && InHand(n0) == []
    requires NodeInv(n) && n.base == [] && WantedBytes(n.l.filter, n.arrived) == whole
    ensures BytesFrom(given, FromStream) + Remaining(n) == whole
  {
    BytesAppend(n.popped, n.l.queue, FromStream);
    assert [] + whole == whole;
    HandedAndRemaining(n0, n, given, whole);
  }
}
