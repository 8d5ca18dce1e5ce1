/** Stream kinds, filters, and the table of active PIDs. */
module PidTable {
  import opened Bytes

  datatype Kind = Video | Audio | Teletext | Subtitles | Pat | Pmt | Eit | Sdt | Rst | Pcr | Other

  /** A bit mask, as the set of its named bits. Bits outside the named ones are
      masked away wherever two masks meet. */
  type FilterType = set<Kind>

  /** PAT and PMT packets never pass: listeners get rewritten tables instead. */
  predicate Wants(filter: FilterType, kinds: FilterType) {
    (filter - {Pat, Pmt}) * kinds != {}
  }

  datatype PidDescription = PidDescription(pid: nat, kinds: FilterType)

  /** The active PIDs, newest first, and the PIDs handed to the tuner, in order. */
  datatype Pids = Pids(active: seq<PidDescription>, tuned: seq<nat>)

  const NO_PIDS := Pids([], [])

  predicate FirstAt(t: seq<PidDescription>, pid: nat, i: nat) {
    i < |t| && t[i].pid == pid && forall j :: 0 <= j < i ==> t[j].pid != pid
  }

  function IndexOf(t: seq<PidDescription>, pid: nat): (r: Option<nat>)
    ensures r.Some? ==> FirstAt(t, pid, r.value)
    ensures r.None? ==> forall j :: 0 <= j < |t| ==> t[j].pid != pid
  {
    if t == [] then None
    else if t[0].pid == pid then Some(0)
    else match IndexOf(t[1..], pid)
      case None => None
      case Some(i) => Some(i + 1)
  }

  function Add(p: Pids, pid: nat, kinds: FilterType): Pids {
    match IndexOf(p.active, pid)
    case Some(i) => p.(active := p.active[i := PidDescription(pid, p.active[i].kinds + kinds)])
    case None => Pids([PidDescription(pid, kinds)] + p.active, p.tuned + [pid])
  }

  function Lookup(t: seq<PidDescription>, pid: nat): FilterType {
    match IndexOf(t, pid)
    case Some(i) => t[i].kinds
    case None => {Other}
  }

  function AddAll(p: Pids, regs: seq<(nat, FilterType)>): Pids {
    if regs == [] then p
    else
      var last := regs[|regs| - 1];
      Add(AddAll(p, regs[..|regs| - 1]), last.0, last.1)
  }

  predicate Registered(regs: seq<(nat, FilterType)>, pid: nat) {
    exists i :: 0 <= i < |regs| && regs[i].0 == pid
  }

  /** All kinds registered for a PID. */
  function KindsOf(regs: seq<(nat, FilterType)>, pid: nat): FilterType {
    if regs == [] then {}
    else
      var last := regs[|regs| - 1];
      KindsOf(regs[..|regs| - 1], pid) + (if last.0 == pid then last.1 else {})
  }

  lemma {:induction false} RegisteredSnoc(regs: seq<(nat, FilterType)>, pid: nat)
    requires regs != []
    ensures Registered(regs, pid) <==> Registered(regs[..|regs| - 1], pid) || regs[|regs| - 1].0 == pid
  {
    var before := regs[..|regs| - 1];
    if Registered(before, pid) {
      var i :| 0 <= i < |before| && before[i].0 == pid;
      assert regs[i].0 == pid;
    }
    if Registered(regs, pid) && regs[|regs| - 1].0 != pid {
      var i :| 0 <= i < |regs| && regs[i].0 == pid;
      assert before[i].0 == pid;
    }
  }

  lemma {:induction false} KindsOfUnregistered(regs: seq<(nat, FilterType)>, pid: nat)
    requires !Registered(regs, pid)
    ensures KindsOf(regs, pid) == {}
  {
    if regs != [] {
      RegisteredSnoc(regs, pid);
      KindsOfUnregistered(regs[..|regs| - 1], pid);
    }
  }

  lemma {:induction false} KindsOfSnoc(regs: seq<(nat, FilterType)>, pid: nat)
    requires regs != []
    ensures var before, last := regs[..|regs| - 1], regs[|regs| - 1];
            KindsOf(regs, pid) == if last.0 != pid then KindsOf(before, pid)
                                 else if Registered(before, pid) then KindsOf(before, pid) + last.1 else last.1
  {
    if !Registered(regs[..|regs| - 1], pid) {
      KindsOfUnregistered(regs[..|regs| - 1], pid);
    }
  }

  ghost predicate NoRepeat(t: seq<PidDescription>) {
    forall i, j :: 0 <= i < j < |t| ==> t[i].pid != t[j].pid
  }

  /** The tuner got each active PID exactly once, oldest first. */
  ghost predicate TunedOnce(p: Pids) {
    p.tuned == OldestFirst(p.active)
  }

  function OldestFirst(t: seq<PidDescription>): seq<nat> {
    if t == [] then [] else OldestFirst(t[1..]) + [t[0].pid]
  }

  /** For every history of registrations since a reset, lookup gives the union of
      everything registered for the PID, or OTHER when nothing was. */
  lemma {:induction false} LookupMeaning(regs: seq<(nat, FilterType)>, pid: nat)
    ensures var t := AddAll(NO_PIDS, regs).active;
            && (IndexOf(t, pid).Some? <==> Registered(regs, pid))
            && Lookup(t, pid) == if Registered(regs, pid) then KindsOf(regs, pid) else {Other}
  {
    if regs != [] {
      var before, last := regs[..|regs| - 1], regs[|regs| - 1];
      var p := AddAll(NO_PIDS, before);
      LookupMeaning(before, pid);
      assert AddAll(NO_PIDS, regs) == Add(p, last.0, last.1);
      LookupAfterAdd(p, last.0, last.1, pid);
      RegisteredSnoc(regs, pid);
      KindsOfSnoc(regs, pid);
    }
  }

  lemma {:induction false} KindsDoNotMatter(t: seq<PidDescription>, i: nat, kinds: FilterType)
    requires i < |t|
    ensures OldestFirst(t[i := PidDescription(t[i].pid, kinds)]) == OldestFirst(t)
  {
    var u := t[i := PidDescription(t[i].pid, kinds)];
    if i == 0 {
      assert u[1..] == t[1..];
    } else {
      assert u[1..] == t[1..][i - 1 := PidDescription(t[1..][i - 1].pid, kinds)];
      KindsDoNotMatter(t[1..], i - 1, kinds);
    }
  }

  lemma {:induction false} AddUnique(p: Pids, pid: nat, kinds: FilterType)
    requires NoRepeat(p.active) && TunedOnce(p)
    ensures NoRepeat(Add(p, pid, kinds).active) && TunedOnce(Add(p, pid, kinds))
  {
    match IndexOf(p.active, pid)
    case Some(i) =>
      KindsDoNotMatter(p.active, i, p.active[i].kinds + kinds);
    case None =>
      var d := PidDescription(pid, kinds);
      assert ([d] + p.active)[1..] == p.active;
  }

  /** No PID is ever repeated and each went to the tuner exactly once. */
  lemma {:induction false} PidsUnique(regs: seq<(nat, FilterType)>)
    ensures var p := AddAll(NO_PIDS, regs); NoRepeat(p.active) && TunedOnce(p)
  {
    if regs != [] {
      var before, last := regs[..|regs| - 1], regs[|regs| - 1];
      PidsUnique(before);
      AddUnique(AddAll(NO_PIDS, before), last.0, last.1);
    }
  }

  lemma {:induction false} LookupAfterAdd(p: Pids, added: nat, kinds: FilterType, pid: nat)
    ensures var q := Add(p, added, kinds);
            && (IndexOf(q.active, pid).Some? <==> IndexOf(p.active, pid).Some? || pid == added)
            && Lookup(q.active, pid) ==
               if pid != added then Lookup(p.active, pid)
               else if IndexOf(p.active, pid).Some? then Lookup(p.active, pid) + kinds else kinds
  {
    var q := Add(p, added, kinds);
    match IndexOf(p.active, added)
    case Some(i) =>
      match IndexOf(p.active, pid) {
        case Some(k) => FirstIsUnique(q.active, pid, k);
        case None => NoFirst(q.active, pid);
      }
    case None =>
      assert q.active[0] == PidDescription(added, kinds) && q.active[1..] == p.active;
  }

  lemma {:induction false} FirstIsUnique(t: seq<PidDescription>, pid: nat, i: nat)
    requires FirstAt(t, pid, i)
    ensures IndexOf(t, pid) == Some(i)
  {
    if i > 0 {
      assert t[0].pid != pid;
      FirstIsUnique(t[1..], pid, i - 1);
    }
  }

  lemma {:induction false} NoFirst(t: seq<PidDescription>, pid: nat)
    requires forall j :: 0 <= j < |t| ==> t[j].pid != pid
    ensures IndexOf(t, pid) == None
  {
  }

  // ------------------------------------------------------------------
  // Kinds of elementary streams
  // ------------------------------------------------------------------

  function StreamKinds(streamType: Byte): FilterType {
    if streamType == 0x01 || streamType == 0x02 || streamType == 0x1b then {Video}
    else if streamType == 0x03 || streamType == 0x04 then {Audio}
    else if streamType == 0x06 then {Teletext}
    else {Other}
  }

  datatype Stream = Stream(streamType: Byte, pid: nat)

  function StreamPids(streams: seq<Stream>): seq<(nat, FilterType)> {
    seq(|streams|, i requires 0 <= i < |streams| => (streams[i].pid, StreamKinds(streams[i].streamType)))
  }

  /** What the PMT callback registers; it takes 0x1ff for "no PCR". */
  function PmtPids(streams: seq<Stream>, pcrPid: nat): seq<(nat, FilterType)> {
    StreamPids(streams) + if pcrPid != 0x1ff then [(pcrPid, {Pcr})] else []
  }

  /** What ISO/IEC 13818-1, section 2.4.4.9, asks for: 0x1FFF means "no PCR". */
  function StandardPmtPids(streams: seq<Stream>, pcrPid: nat): seq<(nat, FilterType)> {
    StreamPids(streams) + if pcrPid != 0x1fff then [(pcrPid, {Pcr})] else []
  }

  lemma {:induction false} PcrStandardIff(streams: seq<Stream>, pcrPid: nat)
    ensures PmtPids(streams, pcrPid) == StandardPmtPids(streams, pcrPid) <==> pcrPid != 0x1ff && pcrPid != 0x1fff
  {
    var a, b := PmtPids(streams, pcrPid), StandardPmtPids(streams, pcrPid);
    assert (pcrPid == 0x1ff || pcrPid == 0x1fff) ==> |a| != |b|;
  }

  lemma {:induction false} KindsOfMember(regs: seq<(nat, FilterType)>, pid: nat, k: Kind)
    ensures k in KindsOf(regs, pid) <==> exists i :: 0 <= i < |regs| && regs[i].0 == pid && k in regs[i].1
  {
    if regs != [] {
      var n := |regs| - 1;
      KindsOfMember(regs[..n], pid, k);
      if k in KindsOf(regs[..n], pid) {
        var i :| 0 <= i < n && regs[..n][i].0 == pid && k in regs[..n][i].1;
        assert regs[i].0 == pid && k in regs[i].1;
      }
      if i :| 0 <= i < |regs| && regs[i].0 == pid && k in regs[i].1 {
        assert i < n ==> regs[..n][i].0 == pid && k in regs[..n][i].1;
      }
    }
  }

  /** Some stream on the PID has one of these types. */
  ghost predicate Carries(streams: seq<Stream>, pid: nat, types: set<int>) {
    exists i :: 0 <= i < |streams| && streams[i].pid == pid && streams[i].streamType in types
  }

  /** What a PMT registers for a PID, by the stream types of ISO/IEC 13818-1, table
      2-29: video, audio and private streams by their types, any other stream as
      OTHER, the PCR on its PID, and nothing else. */
  lemma {:induction false} StreamsRegister(streams: seq<Stream>, pcrPid: nat, pid: nat)
    ensures var kinds := KindsOf(PmtPids(streams, pcrPid), pid);
            && (Video in kinds <==> Carries(streams, pid, {0x01, 0x02, 0x1b}))
            && (Audio in kinds <==> Carries(streams, pid, {0x03, 0x04}))
            && (Teletext in kinds <==> Carries(streams, pid, {0x06}))
            && (Other in kinds <==> exists i :: 0 <= i < |streams| && streams[i].pid == pid &&
                                                streams[i].streamType !in {0x01, 0x02, 0x1b, 0x03, 0x04, 0x06})
            && (Pcr in kinds <==> pcrPid == pid && pcrPid != 0x1ff)
            && kinds <= {Video, Audio, Teletext, Other, Pcr}
  {
    var regs, n := PmtPids(streams, pcrPid), |streams|;
    forall k: Kind
      ensures k in KindsOf(regs, pid) <==>
              (exists i :: 0 <= i < n && streams[i].pid == pid && k in StreamKinds(streams[i].streamType)) ||
              (k == Pcr && pcrPid == pid && pcrPid != 0x1ff)
    {
      KindsOfMember(regs, pid, k);
      assert forall i :: 0 <= i < n ==> regs[i] == (streams[i].pid, StreamKinds(streams[i].streamType));
      assert pcrPid != 0x1ff ==> regs[n] == (pcrPid, {Pcr});
    }
  }
}
