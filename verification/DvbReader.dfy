/** The reader object: its listeners, PID table and rewritten tables, updated in
    place. The broadcasts are the regions under the listener mutex. */
module DvbReader {
  import opened Bytes
  import opened TsFormat
  import opened PidTable
  import opened Packetiser
  import opened ListenerState
  import opened DvbListener

  const TABLE_PAT := 0
  const TABLE_PMT := 1
  const TABLE_EIT := 2
  const TABLE_SDT := 3
  const TABLE_RST := 4

  /** Table PIDs in the order PAT, PMT, EIT, SDT, RST. */
  function TablePids(pmtPid: nat): seq<nat> { [0, pmtPid, 18, 17, 19] }

  /** The first table on a PID. */
  function TableOn(pids: seq<nat>, pid: nat): (r: Option<nat>)
    ensures r.Some? ==> r.value < |pids| && pids[r.value] == pid && forall i :: 0 <= i < r.value ==> pids[i] != pid
    ensures r.None? ==> pid !in pids
  {
    if pids == [] then None
    else if pids[0] == pid then Some(0)
    else match TableOn(pids[1..], pid)
      case None => None
      case Some(i) => Some(i + 1)
  }

  /** What the data thread registers before it reads. */
  const DATA_PIDS: seq<(nat, FilterType)> := [(0, {Pat}), (18, {Eit}), (17, {Sdt}), (19, {Rst})]

  /** What a decoder makes of a packet: nothing yet, or a whole table, with the
      section that rewriting it generates. */
  datatype Decoded =
    | Undecoded
    | PatTable(programs: seq<Program>, patSection: Option<seq<Byte>>)
    | PmtTable(streams: seq<Stream>, pcrPid: nat, pmtSection: Option<seq<Byte>>)

  /** The listener answers to this descriptor, or to this callback when there is none. */
  predicate AnswersTo(l: ReaderListener, fd: int, callback: nat) {
    if fd >= 0 then l.fd == fd else l.callback == callback
  }

  datatype Program = Program(number: nat, pid: nat)

  /** Entry i is the first one for the program. */
  predicate FirstListed(programs: seq<Program>, number: nat, i: nat) {
    i < |programs| && programs[i].number == number && forall j :: 0 <= j < i ==> programs[j].number != number
  }

  function ProgramPid(programs: seq<Program>, number: nat): (r: Option<nat>)
    ensures r.Some? ==> exists i: nat :: FirstListed(programs, number, i) && programs[i].pid == r.value
    ensures r.None? ==> forall i :: 0 <= i < |programs| ==> programs[i].number != number
  {
    if programs == [] then None
    else if programs[0].number == number then (assert FirstListed(programs, number, 0); Some(programs[0].pid))
    else
      var r := ProgramPid(programs[1..], number);
      assert r.Some? ==> exists i: nat :: FirstListed(programs, number, i) && programs[i].pid == r.value by {
        if i: nat :| r.Some? && FirstListed(programs[1..], number, i) && programs[1..][i].pid == r.value {
          assert FirstListed(programs, number, i + 1);
        }
      }
      r
  }

  /** The PID of the first entry for the program; none exactly when no entry is. */
  lemma {:induction false} ProgramPidIff(programs: seq<Program>, number: nat, pid: nat)
    ensures ProgramPid(programs, number) == Some(pid) <==>
            exists i :: 0 <= i < |programs| && programs[i].number == number && programs[i].pid == pid &&
                        forall j :: 0 <= j < i ==> programs[j].number != number
    ensures ProgramPid(programs, number) == None <==> forall i :: 0 <= i < |programs| ==> programs[i].number != number
  {
    var r := ProgramPid(programs, number);
    if i :| 0 <= i < |programs| && programs[i].number == number && forall j :: 0 <= j < i ==>
        programs[j].number != number {
      var k: nat :| r.Some? && FirstListed(programs, number, k) && programs[k].pid == r.value;
      assert k == i;
    }
  }

  /** What the data thread registers: PAT on PID 0, SDT on 0x11, EIT on 0x12 and RST on
      0x13 (ISO/IEC 13818-1, section 2.4.4, and ETSI EN 300 468, section 5.1.3), each on
      the PID of its table's decoder; any other PID is OTHER. */
  lemma {:induction false} DataPidsMean(pid: nat)
    ensures Lookup(AddAll(NO_PIDS, DATA_PIDS).active, pid) ==
            if pid == 0 then {Pat} else if pid == 0x11 then {Sdt} else if pid == 0x12 then {Eit}
            else if pid == 0x13 then {Rst} else {Other}
  {
    LookupMeaning(DATA_PIDS, pid);
    DataKinds(pid);
  }

  lemma {:induction false} DataDecoders()
    ensures TableOn(TablePids(0xffff), 0) == Some(TABLE_PAT) && TableOn(TablePids(0xffff), 0x11) == Some(TABLE_SDT)
    ensures TableOn(TablePids(0xffff), 0x12) == Some(TABLE_EIT) && TableOn(TablePids(0xffff), 0x13) == Some(TABLE_RST)
  {
  }

  lemma {:induction false} DataKinds(pid: nat)
    ensures KindsOf(DATA_PIDS, pid) ==
            if pid == 0 then {Pat} else if pid == 0x11 then {Sdt} else if pid == 0x12 then {Eit}
            else if pid == 0x13 then {Rst} else {}
    ensures Registered(DATA_PIDS, pid) <==> pid in {0, 0x11, 0x12, 0x13}
  {
    var p3, p2, p1 := DATA_PIDS[..3], DATA_PIDS[..3][..2], DATA_PIDS[..3][..2][..1];
    assert p3 == [(0, {Pat}), (18, {Eit}), (17, {Sdt})] && p2 == [(0, {Pat}), (18, {Eit})] && p1 == [(0, {Pat})];
    assert p1[..0] == [];
    assert KindsOf(p1, pid) == if pid == 0 then {Pat} else {};
    assert KindsOf(p2, pid) == if pid == 0 then {Pat} else if pid == 18 then {Eit} else {};
    assert KindsOf(p3, pid) == if pid == 0 then {Pat} else if pid == 18 then {Eit} else if pid == 17 then {Sdt} else {};
    assert DATA_PIDS[0].0 == 0 && DATA_PIDS[1].0 == 18 && DATA_PIDS[2].0 == 17 && DATA_PIDS[3].0 == 19;
  }

  class DVBReader {
    var listeners: seq<ReaderListener>
    var activePids: seq<PidDescription>
    var tunedPids: seq<nat>             // what the tuner was asked to add
    var programNumber: nat
    var tablePids: seq<nat>
    var attached: seq<bool>             // tables with a decoder
    var decoded: seq<(nat, seq<Byte>)>  // packets pushed to decoders
    var havePat: bool
    var havePmt: bool
    var patPacketCount: nat
    var patData: seq<Byte>
    var pmtPacketCount: nat
    var pmtData: seq<Byte>
    var tuneRequests: seq<nat>          // channels put into the event queue

    constructor (programNumber: nat)
      ensures Valid() && listeners == [] && PidState() == NO_PIDS && patPacketCount == 0 && pmtPacketCount == 0
      ensures !havePat && !havePmt && attached == [false, false, false, false, false] && decoded == []
              && tuneRequests == []
      ensures this.programNumber == programNumber
    {
      listeners, activePids, tunedPids := [], [], [];
      this.programNumber := programNumber;
      tablePids := TablePids(0xffff);
      attached, decoded := [false, false, false, false, false], [];
      havePat, havePmt := false, false;
      patPacketCount, patData, pmtPacketCount, pmtData := 0, [], 0, [];
      tuneRequests := [];
    }

    ghost predicate ListenersValid()
      reads this`listeners, listeners
    {
      && (forall i :: 0 <= i < |listeners| ==> listeners[i].Valid())
      && (forall i, j :: 0 <= i < j < |listeners| ==>
           listeners[i] != listeners[j] && listeners[i].buffer != listeners[j].buffer)
    }

    ghost predicate Valid()
      reads this, listeners
    {
      && ListenersValid()
      && |attached| == |tablePids| == 5 && tablePids == TablePids(tablePids[TABLE_PMT])
      && (!havePat ==> patPacketCount == 0)
    }

    ghost function Buffers(): set<array<Byte>>
      reads this`listeners, listeners
    {
      set l | l in listeners :: l.buffer
    }

    ghost function PidState(): Pids
      reads this
    {
      Pids(activePids, tunedPids)
    }

    // ----- PID table -----

    method FindPid(pid: nat) returns (r: Option<nat>)
      ensures r == IndexOf(activePids, pid)
    {
      var i := 0;
      while i < |activePids|
        invariant 0 <= i <= |activePids|
        invariant forall j :: 0 <= j < i ==> activePids[j].pid != pid
      {
        if activePids[i].pid == pid {
          FirstIsUnique(activePids, pid, i);
          return Some(i);
        }
        i := i + 1;
      }
      NoFirst(activePids, pid);
      return None;
    }

    method AddActivePid(pid: nat, kinds: FilterType)
      modifies this`activePids, this`tunedPids
      ensures PidState() == Add(old(PidState()), pid, kinds)
    {
      var link := FindPid(pid);
      if link.Some? {
        activePids := activePids[link.value := PidDescription(pid, activePids[link.value].kinds + kinds)];
        return;
      }
      tunedPids := tunedPids + [pid];
      activePids := [PidDescription(pid, kinds)] + activePids;
    }

    method AddActivePids(regs: seq<(nat, FilterType)>)
      modifies this`activePids, this`tunedPids
      ensures PidState() == AddAll(old(PidState()), regs)
    {
      var i := 0;
      assert regs[..0] == [];
      while i < |regs|
        invariant 0 <= i <= |regs| && PidState() == AddAll(old(PidState()), regs[..i])
      {
        assert regs[..i + 1][..i] == regs[..i];
        AddActivePid(regs[i].0, regs[i].1);
        i := i + 1;
      }
      assert regs[..i] == regs;
    }

    /** The data thread starts: decoders for all tables but the PMT. */
    method StartData()
      requires |attached| == 5
      modifies this`attached, this`activePids, this`tunedPids
      ensures attached == [true, old(attached)[TABLE_PMT], true, true, true]
      ensures PidState() == AddAll(old(PidState()), DATA_PIDS)
    {
      attached := attached[TABLE_PAT := true][TABLE_EIT := true][TABLE_SDT := true][TABLE_RST := true];
      AddActivePids(DATA_PIDS);
    }

    method Tune(channel: nat)
      modifies this`tuneRequests
      ensures tuneRequests == old(tuneRequests) + [channel]
    {
      tuneRequests := tuneRequests + [channel];
    }

    method GetActivePidType(pid: nat) returns (kinds: FilterType)
      ensures kinds == Lookup(activePids, pid)
    {
      var i := FindPid(pid);
      kinds := if i.Some? then activePids[i.value].kinds else {Other};
    }

    // ----- broadcasts over the listener list -----

    /** One listener takes the packet; the others do not notice. */
    method PushTo(i: nat, kinds: FilterType, packet: seq<Byte>)
      requires ListenersValid() && i < |listeners| && |packet| == TS_SIZE
      modifies listeners[i], listeners[i].buffer
      ensures ListenersValid() && listeners[i].Abs() == PushPacket(old(listeners[i].Abs()), kinds, packet)
      ensures forall k :: 0 <= k < |listeners| && k != i ==> listeners[k].Abs() == old(listeners[k].Abs())
    {
      listeners[i].PushPacket(kinds, packet);
    }

    method WritePacket(packet: seq<Byte>)
      requires ListenersValid() && |packet| == TS_SIZE
      modifies listeners, Buffers()
      ensures ListenersValid()
      ensures forall i :: 0 <= i < |listeners| ==>
                listeners[i].Abs() == PushPacket(old(listeners[i].Abs()), Lookup(activePids, GetPid(packet)), packet)
    {
      var kinds := GetActivePidType(GetPid(packet));
      var i := 0;
      while i < |listeners|
        invariant 0 <= i <= |listeners| && ListenersValid()
        invariant forall k :: 0 <= k < i ==> listeners[k].Abs() == PushPacket(old(listeners[k].Abs()), kinds, packet)
        invariant forall k :: i <= k < |listeners| ==> listeners[k].Abs() == old(listeners[k].Abs())
      {
        label before:
        PushTo(i, kinds, packet);
        assert forall k :: 0 <= k < i ==> listeners[k].Abs() == old@before(listeners[k].Abs());
        i := i + 1;
      }
    }

    method SendPatTo(i: nat)
      requires ListenersValid() && i < |listeners|
      modifies listeners[i]
      ensures ListenersValid() && listeners[i].Abs() == SendPat(old(listeners[i].Abs()), patData, patPacketCount)
      ensures forall k :: 0 <= k < |listeners| && k != i ==> listeners[k].Abs() == old(listeners[k].Abs())
    {
      listeners[i].SendPat(patData, patPacketCount);
    }

    method SendPatToAll()
      requires ListenersValid()
      modifies listeners
      ensures ListenersValid()
      ensures forall i :: 0 <= i < |listeners| ==>
              listeners[i].Abs() == SendPat(old(listeners[i].Abs()), patData, patPacketCount)
    {
      var i := 0;
      while i < |listeners|
        invariant 0 <= i <= |listeners| && ListenersValid()
        invariant forall k :: 0 <= k < i ==>
                  listeners[k].Abs() == SendPat(old(listeners[k].Abs()), patData, patPacketCount)
        invariant forall k :: i <= k < |listeners| ==> listeners[k].Abs() == old(listeners[k].Abs())
      {
        label before:
        SendPatTo(i);
        assert forall k :: 0 <= k < i ==> listeners[k].Abs() == old@before(listeners[k].Abs());
        i := i + 1;
      }
    }

    method SendPmtTo(i: nat)
      requires ListenersValid() && i < |listeners|
      modifies listeners[i]
      ensures ListenersValid() && listeners[i].Abs() == SendPmt(old(listeners[i].Abs()), pmtData, pmtPacketCount)
      ensures forall k :: 0 <= k < |listeners| && k != i ==> listeners[k].Abs() == old(listeners[k].Abs())
    {
      listeners[i].SendPmt(pmtData, pmtPacketCount);
    }

    method SendPmtToAll()
      requires ListenersValid()
      modifies listeners
      ensures ListenersValid()
      ensures forall i :: 0 <= i < |listeners| ==>
              listeners[i].Abs() == SendPmt(old(listeners[i].Abs()), pmtData, pmtPacketCount)
    {
      var i := 0;
      while i < |listeners|
        invariant 0 <= i <= |listeners| && ListenersValid()
        invariant forall k :: 0 <= k < i ==>
                  listeners[k].Abs() == SendPmt(old(listeners[k].Abs()), pmtData, pmtPacketCount)
        invariant forall k :: i <= k < |listeners| ==> listeners[k].Abs() == old(listeners[k].Abs())
      {
        label before:
        SendPmtTo(i);
        assert forall k :: 0 <= k < i ==> listeners[k].Abs() == old@before(listeners[k].Abs());
        i := i + 1;
      }
    }

    method SendTo(i: nat, m: Message, immediately: bool)
      requires ListenersValid() && i < |listeners|
      modifies listeners[i]
      ensures ListenersValid() && listeners[i].Abs() == Send(old(listeners[i].Abs()), m, immediately)
      ensures forall k :: 0 <= k < |listeners| && k != i ==> listeners[k].Abs() == old(listeners[k].Abs())
    {
      listeners[i].SendMessage(m, immediately);
    }

    method BroadcastMessage(m: Message, immediately: bool)
      requires ListenersValid()
      modifies listeners
      ensures ListenersValid()
      ensures forall i :: 0 <= i < |listeners| ==> listeners[i].Abs() == Send(old(listeners[i].Abs()), m, immediately)
    {
      var i := 0;
      while i < |listeners|
        invariant 0 <= i <= |listeners| && ListenersValid()
        invariant forall k :: 0 <= k < i ==> listeners[k].Abs() == Send(old(listeners[k].Abs()), m, immediately)
        invariant forall k :: i <= k < |listeners| ==> listeners[k].Abs() == old(listeners[k].Abs())
      {
        label before:
        SendTo(i, m, immediately);
        assert forall k :: 0 <= k < i ==> listeners[k].Abs() == old@before(listeners[k].Abs());
        i := i + 1;
      }
    }

    method ResetOne(i: nat)
      requires ListenersValid() && i < |listeners|
      modifies listeners[i]
      ensures ListenersValid() && listeners[i].Abs() == ResetListener(old(listeners[i].Abs()))
      ensures forall k :: 0 <= k < |listeners| && k != i ==> listeners[k].Abs() == old(listeners[k].Abs())
    {
      listeners[i].Reset();
    }

    method ResetListeners()
      requires ListenersValid()
      modifies listeners
      ensures ListenersValid()
      ensures forall i :: 0 <= i < |listeners| ==> listeners[i].Abs() == ResetListener(old(listeners[i].Abs()))
    {
      var i := 0;
      while i < |listeners|
        invariant 0 <= i <= |listeners| && ListenersValid()
        invariant forall k :: 0 <= k < i ==> listeners[k].Abs() == ResetListener(old(listeners[k].Abs()))
        invariant forall k :: i <= k < |listeners| ==> listeners[k].Abs() == old(listeners[k].Abs())
      {
        label before:
        ResetOne(i);
        assert forall k :: 0 <= k < i ==> listeners[k].Abs() == old@before(listeners[k].Abs());
        i := i + 1;
      }
    }

    method ForgetTables()
      modifies this`tablePids, this`attached, this`havePat, this`havePmt, this`patPacketCount, this`pmtPacketCount,
          this`patData, this`pmtData
      ensures patPacketCount == 0 && pmtPacketCount == 0 && patData == [] && pmtData == [] && !havePat && !havePmt
      ensures tablePids == TablePids(0xffff) && attached == [false, false, false, false, false]
    {
      tablePids := TablePids(0xffff);
      attached := [false, false, false, false, false];
      havePat, havePmt := false, false;
      patPacketCount, pmtPacketCount := 0, 0;
      patData, pmtData := [], [];
    }

    /** Forgets tables, PIDs and what the listeners were given, for the next stream. */
    method Reset()
      requires Valid()
      modifies this, listeners
      ensures Valid() && listeners == old(listeners)
      ensures PidState() == NO_PIDS && patPacketCount == 0 && pmtPacketCount == 0 && patData == [] && pmtData == []
      ensures !havePat && !havePmt && tablePids == TablePids(0xffff) && attached == [false, false, false, false, false]
      ensures forall i :: 0 <= i < |listeners| ==> listeners[i].Abs() == ResetListener(old(listeners[i].Abs()))
    {
      ForgetTables();
      ResetListeners();
      activePids, tunedPids := [], [];
    }

    // ----- registration -----

    method FindListener(fd: int, callback: nat) returns (r: Option<nat>)
      ensures r.Some? ==> r.value < |listeners| && AnswersTo(listeners[r.value], fd, callback)
      ensures r.Some? && fd >= 0 ==> listeners[r.value].fd == fd
      ensures r.Some? && fd < 0 ==> listeners[r.value].callback == callback
      ensures r.None? ==> forall j :: 0 <= j < |listeners| ==>
                (fd >= 0 ==> listeners[j].fd != fd) && (fd < 0 ==> listeners[j].callback != callback)
      ensures forall j :: 0 <= j < (if r.Some? then r.value else |listeners|) ==> !AnswersTo(listeners[j], fd, callback)
    {
      var i := 0;
      while i < |listeners|
        invariant 0 <= i <= |listeners|
        invariant forall j :: 0 <= j < i ==> !AnswersTo(listeners[j], fd, callback)
      {
        if (fd >= 0 && listeners[i].fd == fd) || (fd < 0 && listeners[i].callback == callback) {
          return Some(i);
        }
        i := i + 1;
      }
      return None;
    }

    /** The first listener with the descriptor or callback, as registered anew,
        or a new one at the head of the list. */
    method FindOrCreate(filter: FilterType, fd: int, callback: nat) returns (l: ReaderListener)
      requires ListenersValid()
      modifies this`listeners, listeners
      ensures ListenersValid() && l in listeners && AnswersTo(l, fd, callback)
      ensures (fd >= 0 ==> l.fd == fd) && (fd < 0 ==> l.callback == callback)
      ensures fresh(l) <==> forall k :: 0 <= k < |old(listeners)| ==>
                if fd >= 0 then old(listeners)[k].fd != fd else old(listeners)[k].callback != callback
      ensures l.Abs() == Registration(filter)
      ensures (l in old(listeners) && listeners == old(listeners))
              || (fresh(l) && fresh(l.buffer) && listeners == [l] + old(listeners))
      ensures fresh(l) ==> forall k :: 0 <= k < |old(listeners)| ==> !AnswersTo(old(listeners)[k], fd, callback)
      ensures forall k :: 0 <= k < |old(listeners)| && old(listeners)[k] != l ==>
                old(listeners)[k].Valid() && old(listeners)[k].Abs() == old(listeners[k].Abs())
    {
      var found := FindListener(fd, callback);
      if found.Some? {
        l := listeners[found.value];
        l.Renew(filter);
      } else {
        l := new ReaderListener(fd, callback, filter);
        listeners := [l] + listeners;
      }
    }

    /** Registers a listener and gives it the tables that are out; the others are
        untouched. */
    method SetListener(filter: FilterType, fd: int, callback: nat) returns (l: ReaderListener)
      requires ListenersValid()
      modifies this`listeners, listeners
      ensures ListenersValid() && l in listeners && AnswersTo(l, fd, callback)
      ensures (fd >= 0 ==> l.fd == fd) && (fd < 0 ==> l.callback == callback)
      ensures fresh(l) <==> forall k :: 0 <= k < |old(listeners)| ==>
                if fd >= 0 then old(listeners)[k].fd != fd else old(listeners)[k].callback != callback
      ensures l.Abs() == ListenerState.Register(filter, patData, patPacketCount, pmtData, pmtPacketCount)
      ensures (l in old(listeners) && listeners == old(listeners))
              || (fresh(l) && fresh(l.buffer) && listeners == [l] + old(listeners))
      ensures fresh(l) ==> forall k :: 0 <= k < |old(listeners)| ==> !AnswersTo(old(listeners)[k], fd, callback)
      ensures forall k :: 0 <= k < |old(listeners)| && old(listeners)[k] != l ==>
                old(listeners)[k].Valid() && old(listeners)[k].Abs() == old(listeners[k].Abs())
    {
      l := FindOrCreate(filter, fd, callback);
      l.SendPat(patData, patPacketCount);
      l.SendPmt(pmtData, pmtPacketCount);
    }

    /** Opens the gate through the queue, or shuts it at once. */
    method SetRunning(fd: int, callback: nat, doRun: bool) returns (found: Option<nat>)
      requires ListenersValid()
      modifies listeners
      ensures ListenersValid()
      ensures found.Some? ==> found.value < |listeners|
      ensures found.Some? && doRun ==>
              listeners[found.value].Abs() == Send(old(listeners[found.value].Abs()), Continue, true)
      ensures found.Some? && !doRun ==>
              listeners[found.value].Abs() == old(listeners[found.value].Abs()).(running := false)
      ensures found.Some? ==> AnswersTo(listeners[found.value], fd, callback)
      ensures forall k :: 0 <= k < (if found.Some? then found.value else |listeners|) ==>
              !AnswersTo(listeners[k], fd, callback)
      ensures forall k :: 0 <= k < |listeners| && found != Some(k) ==> listeners[k].Abs() == old(listeners[k].Abs())
    {
      found := FindListener(fd, callback);
      if found.Some? {
        if doRun {
          listeners[found.value].SendMessage(Continue, true);
        } else {
          listeners[found.value].Pause();
        }
      }
    }

    /** Takes the first match off the list and tells its worker to quit. */
    method RemoveListener(fd: int, callback: nat) returns (found: Option<nat>)
      requires ListenersValid()
      modifies this`listeners, listeners
      ensures ListenersValid()
      ensures found.None? ==> listeners == old(listeners)
      ensures found.None? ==> forall k :: 0 <= k < |listeners| ==> listeners[k].Abs() == old(listeners[k].Abs())
      ensures found.None? ==> forall k :: 0 <= k < |listeners| ==> !AnswersTo(listeners[k], fd, callback)
      ensures found.Some? ==> found.value < |old(listeners)|
      ensures found.Some? ==> listeners == old(listeners)[..found.value] + old(listeners)[found.value + 1..]
      ensures found.Some? ==>
                var gone := old(listeners)[found.value];
                && AnswersTo(gone, fd, callback)
                && gone.Valid() && gone.Abs() ==
                     (if old(gone.terminate) then old(gone.Abs()) else Send(old(gone.Abs()), Quit, true))
      ensures forall k :: 0 <= k < |old(listeners)| && found != Some(k) ==>
                old(listeners)[k].Valid() && old(listeners)[k].Abs() == old(listeners[k].Abs())
    {
      found := FindListener(fd, callback);
      if found.Some? {
        var gone := listeners[found.value];
        listeners := listeners[..found.value] + listeners[found.value + 1..];
        if !gone.terminate {
          gone.SendMessage(Quit, true);
        }
      }
    }

    // ----- table callbacks -----

    /** Searches the PAT for the wanted program. */
    method FindProgram(programs: seq<Program>) returns (pid: Option<nat>)
      ensures pid == ProgramPid(programs, programNumber)
    {
      var i := 0;
      assert programs[0..] == programs;
      while i < |programs|
        invariant 0 <= i <= |programs|
        invariant ProgramPid(programs, programNumber) == ProgramPid(programs[i..], programNumber)
      {
        if programs[i].number == programNumber {
          return Some(programs[i].pid);
        }
        assert programs[i..][1..] == programs[i + 1..];
        i := i + 1;
      }
      return None;
    }

    /** Takes up the elementary streams and the PCR of a PMT. */
    method AddStreams(streams: seq<Stream>, pcrPid: nat)
      modifies this`activePids, this`tunedPids
      ensures PidState() == AddAll(old(PidState()), PmtPids(streams, pcrPid))
    {
      ghost var regs := PmtPids(streams, pcrPid);
      AddActivePids(StreamPids(streams));
      if pcrPid != 0x1ff {
        assert regs[..|regs| - 1] == StreamPids(streams);
        AddActivePid(pcrPid, {Pcr});
      } else {
        assert regs == StreamPids(streams);
      }
    }

    /** The program's PMT gets a decoder and a place in the PID table. */
    method TakeUpProgram(pid: nat)
      requires |attached| == |tablePids| == 5 && tablePids == TablePids(tablePids[TABLE_PMT])
      modifies this`attached, this`tablePids, this`activePids, this`tunedPids
      ensures attached == old(attached)[TABLE_PMT := true] && tablePids == TablePids(pid)
      ensures PidState() == Add(old(PidState()), pid, {Kind.Pmt})
    {
      attached := attached[TABLE_PMT := true];
      tablePids := tablePids[TABLE_PMT := pid];
      AddActivePid(pid, {Kind.Pmt});
    }

    method RewritePat(section: Option<seq<Byte>>)
      modifies this`patData, this`patPacketCount
      ensures patData == TableBytes(0, section) && patPacketCount == TableCount(section)
    {
      var packets, count := SectionToTsPackets(0, section);
      patData, patPacketCount := if packets == null then [] else packets[..], count;
    }

    method RewritePmt(section: Option<seq<Byte>>)
      requires |tablePids| == 5
      modifies this`pmtData, this`pmtPacketCount
      ensures pmtData == TableBytes(tablePids[TABLE_PMT], section) && pmtPacketCount == TableCount(section)
    {
      var packets, count := SectionToTsPackets(tablePids[TABLE_PMT], section);
      pmtData, pmtPacketCount := if packets == null then [] else packets[..], count;
    }

    /** A decoded PAT: takes up the wanted program's PMT, rewrites the PAT to list
        only that program and hands it out. The generated section is `section`. */
    method PatCallback(programs: seq<Program>, section: Option<seq<Byte>>)
      requires Valid()
      modifies this`attached, this`tablePids, this`activePids, this`tunedPids, this`patData, this`patPacketCount,
          this`havePat, listeners
      ensures Valid()
      ensures old(havePat) || ProgramPid(programs, programNumber).None? ==>
                && havePat == old(havePat) && patPacketCount == old(patPacketCount) && patData == old(patData)
                && PidState() == old(PidState()) && tablePids == old(tablePids) && attached == old(attached)
                && forall i :: 0 <= i < |listeners| ==> listeners[i].Abs() == old(listeners[i].Abs())
      ensures !old(havePat) && ProgramPid(programs, programNumber).Some? ==>
                var pid := ProgramPid(programs, programNumber).value;
                && patData == TableBytes(0, section) && patPacketCount == TableCount(section)
                && (havePat <==> patPacketCount > 0)
                && PidState() == Add(old(PidState()), pid, {Kind.Pmt}) && tablePids == TablePids(pid)
                     && attached[TABLE_PMT]
                && forall i :: 0 <= i < |listeners| ==>
                     listeners[i].Abs() == SendPat(old(listeners[i].Abs()), patData, patPacketCount)
      ensures forall i: nat :: !old(havePat) && FirstListed(programs, programNumber, i) ==>
                tablePids == TablePids(programs[i].pid) && attached[TABLE_PMT] && patData == TableBytes(0, section)
      ensures (forall i :: 0 <= i < |programs| ==> programs[i].number != programNumber) ==>
                tablePids == old(tablePids) && attached == old(attached) && patData == old(patData)
    {
      if havePat {
        return;
      }
      var pid := FindProgram(programs);
      if pid.None? {
        return;
      }
      TakeUpProgram(pid.value);
      RewritePat(section);
      if patPacketCount > 0 {
        havePat := true;
        SendPatToAll();
      }
    }

    /** The part of the PMT callback that leaves the listeners alone. */
    method TakeUpPmt(section: Option<seq<Byte>>, streams: seq<Stream>, pcrPid: nat)
      requires |tablePids| == 5
      modifies this`activePids, this`tunedPids, this`pmtData, this`pmtPacketCount, this`havePmt
      ensures pmtData == TableBytes(tablePids[TABLE_PMT], section) && pmtPacketCount == TableCount(section) && havePmt
      ensures PidState() == AddAll(old(PidState()), PmtPids(streams, pcrPid))
    {
      RewritePmt(section);
      AddStreams(streams, pcrPid);
      havePmt := true;
    }

    /** A decoded PMT: rewrites it, takes up the program's streams, hands it out. */
    method PmtCallback(section: Option<seq<Byte>>, streams: seq<Stream>, pcrPid: nat)
      requires Valid()
      modifies this`activePids, this`tunedPids, this`pmtData, this`pmtPacketCount, this`havePmt, listeners
      ensures Valid()
      ensures if old(havePmt) then
                && PidState() == old(PidState()) && pmtData == old(pmtData) && pmtPacketCount == old(pmtPacketCount)
                && forall i :: 0 <= i < |listeners| ==> listeners[i].Abs() == old(listeners[i].Abs())
              else
                && pmtData == TableBytes(tablePids[TABLE_PMT], section) && pmtPacketCount == TableCount(section)
                && PidState() == AddAll(old(PidState()), PmtPids(streams, pcrPid))
                && forall i :: 0 <= i < |listeners| ==>
                     listeners[i].Abs() == SendPmt(old(listeners[i].Abs()), pmtData, pmtPacketCount)
      ensures havePmt
    {
      if havePmt {
        return;
      }
      TakeUpPmt(section, streams, pcrPid);
      SendPmtToAll();
    }

    // ----- packets -----

    /** A decoder gets a packet and calls back when that completes a table. */
    method PushToDecoder(table: nat, packet: seq<Byte>, d: Decoded)
      requires Valid() && table < 5
      modifies this`decoded, this`attached, this`tablePids, this`activePids, this`tunedPids, this`patData,
          this`patPacketCount, this`havePat,
               this`pmtData, this`pmtPacketCount, this`havePmt, listeners
      ensures Valid() && decoded == old(decoded) + [(table, packet)]
      ensures var takesPat := old(TakesPat(table, d));
              var takesPmt := old(TakesPmt(table, d));
              && (takesPat ==> patData == TableBytes(0, d.patSection) && patPacketCount == TableCount(d.patSection))
              && (!takesPat ==> patData == old(patData) && patPacketCount == old(patPacketCount))
              && (!takesPat ==> tablePids == old(tablePids) && attached == old(attached))
              && (takesPmt ==>
                   pmtData == TableBytes(old(tablePids)[TABLE_PMT], d.pmtSection)
                       && pmtPacketCount == TableCount(d.pmtSection))
              && (!takesPmt ==> pmtData == old(pmtData) && pmtPacketCount == old(pmtPacketCount))
              && PidState() ==
                 (if takesPat then Add(old(PidState()), old(ProgramPid(d.programs, programNumber)).value, {Kind.Pmt})
                  else if takesPmt then AddAll(old(PidState()), PmtPids(d.streams, d.pcrPid))
                  else old(PidState()))
              && forall i :: 0 <= i < |listeners| ==>
                   listeners[i].Abs() == if takesPat then SendPat(old(listeners[i].Abs()), patData, patPacketCount)
                                         else if takesPmt then SendPmt(old(listeners[i].Abs()), pmtData, pmtPacketCount)
                                         else old(listeners[i].Abs())
    {
      decoded := decoded + [(table, packet)];
      if table == TABLE_PAT && d.PatTable? {
        PatCallback(d.programs, d.patSection);
      } else if table == TABLE_PMT && d.PmtTable? {
        PmtCallback(d.pmtSection, d.streams, d.pcrPid);
      }
    }

    /** The callback for a decoded table goes ahead. */
    predicate TakesPat(table: nat, d: Decoded)
      reads this
    {
      table == TABLE_PAT && d.PatTable? && !havePat && ProgramPid(d.programs, programNumber).Some?
    }

    predicate TakesPmt(table: nat, d: Decoded)
      reads this
    {
      table == TABLE_PMT && d.PmtTable? && !havePmt
    }

    /** The decoder that gets a packet, if there is one on its PID. */
    function DecoderOf(packet: seq<Byte>): Option<nat>
      requires |packet| == TS_SIZE && |attached| == |tablePids| == 5
      reads this
    {
      var table := TableOn(tablePids, GetPid(packet));
      if table.Some? && attached[table.value] then table else None
    }

    /** Looks for the table on the packet's PID. High PIDs skip the search, which
        never changes the outcome. */
    method FindDecoder(packet: seq<Byte>) returns (table: Option<nat>)
      requires Valid() && |packet| == TS_SIZE
      ensures table == DecoderOf(packet) && (table.Some? ==> table.value < 5)
    {
      var pid := GetPid(packet);
      table := None;
      if pid <= 0x1f || pid == tablePids[TABLE_PMT] {
        var i := 0;
        while i < 5
          invariant 0 <= i <= 5
          invariant forall j :: 0 <= j < i ==> tablePids[j] != pid
          invariant table.None?
        {
          if tablePids[i] == pid {
            assert TableOn(tablePids, pid) == Some(i);
            if attached[i] {
              table := Some(i);
            }
            return;
          }
          i := i + 1;
        }
        assert TableOn(tablePids, pid).None?;
      } else {
        assert TableOn(tablePids, pid).None?;
      }
    }

    /** A packet from the framer: its table decoder gets it first, with what that
        sets off; then every listener is offered it, under the kinds its PID has by
        then. d is what the decoder makes of it. */
    method HandlePacket(packet: seq<Byte>, d: Decoded) returns (goOn: bool)
      requires Valid() && |packet| == TS_SIZE
      modifies this`decoded, this`attached, this`tablePids, this`activePids, this`tunedPids, this`patData,
          this`patPacketCount, this`havePat,
               this`pmtData, this`pmtPacketCount, this`havePmt, listeners, Buffers()
      ensures Valid() && goOn
      ensures var table := old(DecoderOf(packet));
              var takesPat := table.Some? && old(TakesPat(DecoderOf(packet).value, d));
              var takesPmt := table.Some? && old(TakesPmt(DecoderOf(packet).value, d));
              && decoded == old(decoded) + (if table.Some? then [(table.value, packet)] else [])
              && PidState() ==
                 (if takesPat then Add(old(PidState()), old(ProgramPid(d.programs, programNumber)).value, {Kind.Pmt})
                  else if takesPmt then AddAll(old(PidState()), PmtPids(d.streams, d.pcrPid))
                  else old(PidState()))
              && forall i :: 0 <= i < |listeners| ==>
                   var l, pmtPid := old(listeners[i].Abs()), old(tablePids)[TABLE_PMT];
                   listeners[i].Abs() ==
                   PushPacket(if takesPat then SendPat(l, TableBytes(0, d.patSection), TableCount(d.patSection))
                              else if takesPmt
                              then SendPmt(l, TableBytes(pmtPid, d.pmtSection), TableCount(d.pmtSection))
                              else l,
                              Lookup(activePids, GetPid(packet)), packet)
    {
      var table := FindDecoder(packet);
      if table.Some? {
        PushToDecoder(table.value, packet, d);
      }
      WritePacket(packet);
      goOn := true;
    }
  }
}
