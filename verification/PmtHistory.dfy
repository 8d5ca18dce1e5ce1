/** Exactly when a listener gets the rewritten PMT, in terms of what happened. */
module PmtHistory {
  import opened Bytes
  import opened TsFormat
  import opened PidTable
  import opened Packetiser
  import opened ReaderSystem
  import opened ReaderSafety
  import opened ReaderRuns

  // ------------------------------------------------------------------
  // Early PMTs
  // ------------------------------------------------------------------

  predicate InPmtCallback(c: Core) { c.pc.PmtData? || c.pc.PmtCount? || c.pc.PmtBroadcast? }

  /** A PMT taken up before the PAT is known as such while its callback runs, and
      none is known before the first one. */
  ghost predicate EarlyInv(c: Core) {
    && (InPmtCallback(c) ==> (c.early <==> c.pat.count == 0))
    && (!c.pmt.done && !InPmtCallback(c) ==> !c.early)
    && (c.pc.PmtBroadcast? ==> c.pmt.done)
  }

  lemma {:induction false} FieldsKeepEarly(c: Core, e: Event)
    requires SharedInv(c) && EarlyInv(c) && (e.For? || CanHappen(c, e))
    ensures EarlyInv(Fields(c, e))
  {
  }

  lemma {:induction false} StepKeepsEarly(s: Sys, e: Event)
    requires Inv(s) && EarlyInv(s.core)
    ensures EarlyInv(Step(s, e).core)
  {
    if Enabled(s, e) {
      FieldsKeepEarly(s.core, e);
    }
  }

  lemma {:induction false} EveryRunEarly(s: Sys, es: seq<Event>)
    requires Inv(s) && EarlyInv(s.core)
    ensures EarlyInv(Steps(s, es).core)
    decreases |es|
  {
    if es != [] {
      StepKeeps(s, es[0]);
      StepKeepsEarly(s, es[0]);
      EveryRunEarly(Step(s, es[0]), es[1..]);
    }
  }

  /** Event i takes up a PMT while no PAT is out. */
  predicate TakesEarly(es: seq<Event>, i: nat)
    requires i < |es|
  {
    var s := Steps(NEW_SYS, es[..i]);
    es[i].PmtSection? && Enabled(s, es[i]) && s.core.pat.count == 0
  }

  predicate ResetsAt(es: seq<Event>, i: nat)
    requires i < |es|
  {
    es[i].Reset? && Enabled(Steps(NEW_SYS, es[..i]), es[i])
  }

  /** Since the last reset a PMT was taken up while no PAT was out. */
  ghost predicate PmtCameEarly(es: seq<Event>) {
    exists i :: 0 <= i < |es| && TakesEarly(es, i) && forall j :: i < j < |es| ==> !ResetsAt(es, j)
  }

  lemma {:induction false} LastStep(es: seq<Event>)
    requires es != []
    ensures Steps(NEW_SYS, es) == Step(Steps(NEW_SYS, es[..|es| - 1]), es[|es| - 1])
  {
    OneMoreStep(es[..|es| - 1], es[|es| - 1]);
    assert es == es[..|es| - 1] + [es[|es| - 1]];
  }

  lemma {:induction false} PrefixesAgree(es: seq<Event>, n: nat, i: nat)
    requires i < n <= |es|
    ensures TakesEarly(es[..n], i) == TakesEarly(es, i) && ResetsAt(es[..n], i) == ResetsAt(es, i)
  {
    assert es[..n][..i] == es[..i];
  }

  lemma {:induction false} CameEarlyLast(es: seq<Event>)
    requires es != []
    ensures var n := |es| - 1;
            PmtCameEarly(es) <==> TakesEarly(es, n) || (PmtCameEarly(es[..n]) && !ResetsAt(es, n))
  {
    var n := |es| - 1;
    forall i | 0 <= i < n
      ensures TakesEarly(es[..n], i) == TakesEarly(es, i) && ResetsAt(es[..n], i) == ResetsAt(es, i)
    {
      PrefixesAgree(es, n, i);
    }
    if PmtCameEarly(es[..n]) && !ResetsAt(es, n) {
      var i :| 0 <= i < n && TakesEarly(es[..n], i) && forall j :: i < j < n ==> !ResetsAt(es[..n], j);
      assert forall j :: i < j < |es| ==> !ResetsAt(es, j);
    }
    if PmtCameEarly(es) && !TakesEarly(es, n) {
      var i :| 0 <= i < |es| && TakesEarly(es, i) && forall j :: i < j < |es| ==> !ResetsAt(es, j);
      assert TakesEarly(es[..n], i);
    }
  }

  /** The model's flag says just that. */
  lemma {:induction false} EarlyMeans(es: seq<Event>)
    ensures Steps(NEW_SYS, es).core.early <==> PmtCameEarly(es)
    decreases |es|
  {
    if es != [] {
      var n := |es| - 1;
      EarlyMeans(es[..n]);
      LastStep(es);
      CameEarlyLast(es);
    }
  }

  // ------------------------------------------------------------------
  // One epoch
  // ------------------------------------------------------------------

  /** For an epoch that began with (patOut) or without a PAT. */
  ghost predicate MissedInv(c: Core, n: Node, patOut: bool) {
    && (patOut ==> c.pat.count > 0)
    && (n.missed ==> !patOut && c.early)
    && (c.pmt.count > 0 && !c.pc.PmtBroadcast? && !patOut && c.early ==> n.missed)
  }

  lemma {:induction false} SharedKeepsMissed(c: Core, e: Event, n: Node, patOut: bool)
    requires SharedInv(c) && EarlyInv(c) && n.attached && TablesInv(c, n) && MissedInv(c, n, patOut)
    requires !e.For? && !e.Reset? && CanHappen(c, e)
    ensures MissedInv(Fields(c, e), Shared(c, e, n), patOut)
  {
  }

  lemma {:induction false} PrivateKeepsMissed(c: Core, a: Action, n: Node, patOut: bool)
    requires MissedInv(c, n, patOut) && CanAct(n, a) && !a.SetListener? && !a.Unlink?
    ensures MissedInv(c, Private(c, a, n), patOut)
  {
  }

  lemma {:induction false} StepKeepsMissed(s: Sys, e: Event, id: nat, patOut: bool)
    requires Inv(s) && EarlyInv(s.core) && id in s.nodes && s.nodes[id].attached && !Interrupts(e, id)
    requires MissedInv(s.core, s.nodes[id], patOut)
    ensures id in Step(s, e).nodes && MissedInv(Step(s, e).core, Step(s, e).nodes[id], patOut)
  {
    if Enabled(s, e) {
      if !e.For? {
        SharedKeepsMissed(s.core, e, s.nodes[id], patOut);
      } else if e.id == id {
        PrivateKeepsMissed(s.core, e.action, s.nodes[id], patOut);
      }
    }
  }

  lemma {:induction false} EpochKeepsMissed(s: Sys, es: seq<Event>, id: nat, patOut: bool)
    requires Inv(s) && EarlyInv(s.core) && id in s.nodes && s.nodes[id].attached && SameEpoch(es, id)
    requires MissedInv(s.core, s.nodes[id], patOut)
    ensures id in Steps(s, es).nodes && MissedInv(Steps(s, es).core, Steps(s, es).nodes[id], patOut)
    decreases |es|
  {
    if es != [] {
      StepKeepsMissed(s, es[0], id, patOut);
      StepContinues(s, es[0], id);
      StepKeeps(s, es[0]);
      StepKeepsEarly(s, es[0]);
      EpochKeepsMissed(Step(s, es[0]), es[1..], id, patOut);
    }
  }

  /** At any quiet moment of an epoch with a PMT out. */
  lemma {:induction false} EpochPmtIff(s: Sys, es: seq<Event>, id: nat, patOut: bool)
    requires Inv(s) && EarlyInv(s.core) && id in s.nodes && s.nodes[id].attached && SameEpoch(es, id)
    requires MissedInv(s.core, s.nodes[id], patOut)
    requires Steps(s, es).core.pc.Idle? && Steps(s, es).core.pmt.count > 0
    ensures id in Steps(s, es).nodes
    ensures Steps(s, es).nodes[id].l.havePmt <==> patOut || !Steps(s, es).core.early
  {
    EpochKeepsMissed(s, es, id, patOut);
    StaysInEpoch(s, es, id);
    EveryRun(s, es);
  }

  // ------------------------------------------------------------------
  // Whole runs
  // ------------------------------------------------------------------

  lemma {:induction false} RunOn(es1: seq<Event>, e: Event, es2: seq<Event>)
    ensures Steps(NEW_SYS, es1 + ([e] + es2)) == Steps(Step(Steps(NEW_SYS, es1), e), es2)
  {
    StepsAppend(NEW_SYS, es1, [e] + es2);
    assert ([e] + es2)[1..] == es2;
  }

  /** A listener registers after es1 and es2 follows. At any quiet moment with a
      PMT out it has been given the PMT exactly when a PAT was out at its
      registration, or no PMT has been taken up before a PAT since the last reset. */
  lemma {:induction false} PmtDeliveredIff(es1: seq<Event>, id: nat, filter: FilterType, es2: seq<Event>)
    requires Enabled(Steps(NEW_SYS, es1), For(id, SetListener(filter))) && SameEpoch(es2, id)
    requires var t := Steps(NEW_SYS, es1 + ([For(id, SetListener(filter))] + es2));
             t.core.pc.Idle? && t.core.pmt.count > 0
    ensures var es := es1 + ([For(id, SetListener(filter))] + es2);
            var t := Steps(NEW_SYS, es);
            id in t.nodes &&
            (t.nodes[id].l.havePmt <==> Steps(NEW_SYS, es1).core.pat.count > 0 || !PmtCameEarly(es))
  {
    var reg := For(id, SetListener(filter));
    var s0 := Steps(NEW_SYS, es1);
    Reachable(es1);
    EveryRunEarly(NEW_SYS, es1);
    StepKeeps(s0, reg);
    RegistrationStartsEpoch(s0, id, filter);
    RunOn(es1, reg, es2);
    EpochPmtIff(Step(s0, reg), es2, id, s0.core.pat.count > 0);
    EarlyMeans(es1 + ([reg] + es2));
  }

  /** The same for a listener that was there at the last reset: it has the PMT
      exactly when that was not taken up before a PAT. */
  lemma {:induction false} PmtAfterResetIff(es1: seq<Event>, id: nat, es2: seq<Event>)
    requires var s := Steps(NEW_SYS, es1); Enabled(s, Reset) && id in s.nodes && s.nodes[id].attached
    requires SameEpoch(es2, id)
    requires var t := Steps(NEW_SYS, es1 + ([Reset] + es2)); t.core.pc.Idle? && t.core.pmt.count > 0
    ensures var es := es1 + ([Reset] + es2);
            var t := Steps(NEW_SYS, es);
            id in t.nodes && (t.nodes[id].l.havePmt <==> !PmtCameEarly(es))
  {
    var s0 := Steps(NEW_SYS, es1);
    Reachable(es1);
    EveryRunEarly(NEW_SYS, es1);
    ResetStartsEpoch(s0, id);
    StepKeepsEarly(s0, Reset);
    SharedStep(s0, Reset, id);
    RunOn(es1, Reset, es2);
    EpochPmtIff(Step(s0, Reset), es2, id, false);
    EarlyMeans(es1 + ([Reset] + es2));
  }

  // ------------------------------------------------------------------
  // Where the tables come from
  // ------------------------------------------------------------------

  /** The bytes and the count are what some PAT section of the run is cut into, on PID 0. */
  ghost predicate FromPat(es: seq<Event>, data: seq<Byte>, n: nat) {
    exists e :: e in es && e.PatSection? && data == TableBytes(0, e.section) && n == TableCount(e.section)
  }

  /** The same for a PMT section, on the PID that some PAT of the run gave. */
  ghost predicate FromPmt(es: seq<Event>, data: seq<Byte>, n: nat) {
    exists e, p :: e in es && p in es && e.PmtSection? && p.PatSection? &&
                   data == TableBytes(p.pmtPid, e.section) && n == TableCount(e.section)
  }

  ghost predicate Sources(c: Core, es: seq<Event>) {
    && (c.pmtAttached ==> exists p :: p in es && p.PatSection? && p.pmtPid == c.pmtPid)
    && (c.pc.PatData? ==> FromPat(es, c.pc.bytes, c.pc.n))
    && (c.pc.PatCount? ==> FromPat(es, c.pat.data, c.pc.n))
    && (c.pat.count > 0 ==> FromPat(es, c.pat.data, c.pat.count))
    && (c.pc.PmtData? ==> FromPmt(es, c.pc.bytes, c.pc.n))
    && (c.pc.PmtCount? ==> FromPmt(es, c.pmt.data, c.pc.n))
    && (c.pmt.count > 0 ==> FromPmt(es, c.pmt.data, c.pmt.count))
  }

  lemma {:induction false} SourcesGrow(c: Core, es: seq<Event>, e: Event)
    requires Sources(c, es)
    ensures Sources(c, es + [e])
  {
    assert forall x :: x in es ==> x in es + [e];
  }

  lemma {:induction false} FieldsKeepSources(c: Core, es: seq<Event>, e: Event)
    requires SharedInv(c) && Sources(c, es) && e in es && (e.For? || CanHappen(c, e))
    ensures Sources(Fields(c, e), es)
  {
  }

  lemma {:induction false} SourcesHold(es: seq<Event>)
    ensures Sources(Steps(NEW_SYS, es).core, es)
    decreases |es|
  {
    if es != [] {
      var n := |es| - 1;
      var s := Steps(NEW_SYS, es[..n]);
      SourcesHold(es[..n]);
      LastStep(es);
      Reachable(es[..n]);
      SourcesGrow(s.core, es[..n], es[n]);
      assert es[..n] + [es[n]] == es;
      if Enabled(s, es[n]) {
        FieldsKeepSources(s.core, es, es[n]);
      }
    }
  }

  /** In every reachable state a PAT that is out is, packet by packet, a PAT section of
      the run on PID 0, with headers as the standard asks, and carries the whole
      section when that fits. */
  lemma {:induction false} PatIsItsSection(es: seq<Event>)
    requires Steps(NEW_SYS, es).core.pat.count > 0
    ensures var pat := Steps(NEW_SYS, es).core.pat;
            exists e :: e in es && e.PatSection? && e.section.Some? && |Frames(pat.data)| == pat.count &&
                        (forall i :: 0 <= i < pat.count ==> IsPacket(Frames(pat.data)[i], 0, i)) &&
                        (|e.section.value| <= 46919 ==> Recovers(Frames(pat.data), e.section.value))
  {
    SourcesHold(es);
    var pat := Steps(NEW_SYS, es).core.pat;
    var e :| e in es && e.PatSection? && pat.data == TableBytes(0, e.section) && pat.count == TableCount(e.section);
    TableIsItsSection(0, e.section);
  }

  /** And so is a PMT, on the program's PID. */
  lemma {:induction false} PmtIsItsSection(es: seq<Event>)
    requires Steps(NEW_SYS, es).core.pmt.count > 0
    ensures var pmt := Steps(NEW_SYS, es).core.pmt;
            exists e, p :: e in es && p in es && e.PmtSection? && p.PatSection? && e.section.Some? &&
                           |Frames(pmt.data)| == pmt.count &&
                           (p.pmtPid < 0x2000 ==>
                             forall i :: 0 <= i < pmt.count ==> IsPacket(Frames(pmt.data)[i], p.pmtPid, i)) &&
                           (|e.section.value| <= 46919 ==> Recovers(Frames(pmt.data), e.section.value))
  {
    SourcesHold(es);
    var pmt := Steps(NEW_SYS, es).core.pmt;
    var e, p :| e in es && p in es && e.PmtSection? && p.PatSection? &&
                pmt.data == TableBytes(p.pmtPid, e.section) && pmt.count == TableCount(e.section);
    TableIsItsSection(p.pmtPid, e.section);
  }

  lemma {:induction false} TableIsItsSection(pid: nat, section: Option<seq<Byte>>)
    requires TableCount(section) > 0
    ensures var data := TableBytes(pid, section);
            && section.Some? && |Frames(data)| == TableCount(section)
            && (pid < 0x2000 ==> forall i :: 0 <= i < |Frames(data)| ==> IsPacket(Frames(data)[i], pid, i))
            && (|section.value| <= 46919 ==> Recovers(Frames(data), section.value))
  {
    var whole := section.value;
    var cut, n := whole[..Size16(|whole|)], PacketCount(|whole|);
    BytesAreFrames(pid, cut, n);
    CompleteIff(pid, whole);
    if pid < 0x2000 {
      forall i | 0 <= i < n ensures IsPacket(PacketAt(pid, cut, i), pid, i) {
        PacketFields(pid, cut, i);
      }
    }
  }
}
