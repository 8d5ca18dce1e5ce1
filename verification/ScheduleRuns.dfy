/** The schedule while it runs: bookings are set and removed between the seconds
    at which the queue picks up and runs its events. */
module ScheduleRuns {
  import opened Bytes
  import opened TimedEvents
  import opened Punctuality
  import opened Scheduled
  import opened RecordingPlan
  import R = RecorderState

  /** State and log of the schedule. Of the events of stored bookings, done are
      those that ran since the booking was set, over those of bookings that were
      over when set; since is the length of the log when each booking was set. */
  datatype World = World(s: State, ran: seq<Ran>, done: set<TimedEvent>, over: set<TimedEvent>, since: map<nat, nat>)
  {
    function Since(id: nat): nat { if id in since then since[id] else 0 }
    function Events(): Queue { Queue(s.list, s.slot, ran) }
    predicate Settled(e: TimedEvent) { e in done || e in over }
  }

  /** A recorder whose schedule is off, and one just switched on. */
  const NEW_WORLD := World(State(map[], [], None, false), [], {}, {}, map[])
  const ON_WORLD := World(State(map[], [], None, true), [], {}, {}, map[])

  datatype Move =
    | Pass                                          // one second
    | Change(id: nat, booking: Booking, newId: nat) // set a booking
    | Cancel(id: nat, rows: seq<Row>)               // remove a booking
    | Refresh(rows: seq<Row>)                       // switch on
    | SwitchOff

  /** The events of a set that a rebuild does not list again. */
  function StillSettled(events: set<TimedEvent>, t: BookingTable, now: int): set<TimedEvent> {
    set e | e in events && e.group in t && t[e.group].start <= now
  }

  function OtherGroups(events: set<TimedEvent>, group: nat): set<TimedEvent> {
    set e | e in events && e.group != group
  }

  function Rebuilt(w: World, s: State, now: int): World {
    World(s, w.ran, StillSettled(w.done, s.table, now), StillSettled(w.over, s.table, now), w.since)
  }

  /** One second; the half-minute timer runs only while the schedule is on. */
  function PassSecond(w: World, now: int, phase: int): Queue {
    RunDue(if w.s.enabled && IsTick(now, phase) then Tick(w.Events(), now) else w.Events(), now)
  }

  function After(w: World, m: Move, now: int, phase: int): World {
    match m
    case Pass =>
      var q := PassSecond(w, now, phase);
      World(w.s.(list := q.list, slot := q.slot), q.ran,
            if |q.ran| > |w.ran| then w.done + {q.ran[|w.ran|].event} else w.done, w.over, w.since)
    case Change(id, b, newId) =>
      if b.start >= b.end then w
      else
        var key := Key(id, newId);
        World(SetBooking(w.s, id, b, newId, now).0, w.ran, OtherGroups(w.done, key),
              OtherGroups(w.over, key) + if b.end <= now then set e | e in Triple(key, b) else {},
              w.since[key := |w.ran|])
    case Cancel(id, rows) => if id == 0 then w else Rebuilt(w, RemoveBooking(w.s, id, rows), now)
    case Refresh(rows) => Rebuilt(w, Enable(w.s, true, rows), now)
    case SwitchOff => w.(s := Enable(w.s, false, []))
  }

  /** The database hands out unused ids and answers its query. */
  ghost predicate Answered(w: World, m: Move, now: int) {
    match m
    case Pass => true
    case Change(id, b, newId) => id == 0 ==> newId !in w.s.table
    case Cancel(id, rows) => id == 0 || !w.s.enabled || IsAnswer(rows, Upcoming(Without(w.s.table, id), now))
    case Refresh(rows) => IsAnswer(rows, Upcoming(w.s.table, now))
    case SwitchOff => true
  }

  // ------------------------------------------------------------------
  // The account of the stored bookings
  // ------------------------------------------------------------------

  /** How often an event waits or is in flight. */
  function Open(s: State, e: TimedEvent): nat {
    multiset(s.list)[e] + if s.slot == Some(e) then 1 else 0
  }

  /** How often it should be. */
  function Owed(w: World, e: TimedEvent): nat { if w.Settled(e) then 0 else Expected(w.s.table, e) }

  /** Every event of every stored booking is settled or open exactly once, and no
      other event is open. */
  ghost predicate Exact(w: World) {
    w.s.enabled && forall e :: Open(w.s, e) == Owed(w, e)
  }

  /** So while the schedule is on; while it is off nothing is in flight. */
  ghost predicate Account(w: World) {
    if w.s.enabled then Exact(w) else w.s.slot.None?
  }

  /** All events of bookings that have begun are settled. */
  ghost predicate BegunSettled(w: World, t: BookingTable, now: int) {
    forall id :: id in t && t[id].start <= now ==> forall e :: e in Triple(id, t[id]) ==> w.Settled(e)
  }

  /** What each move needs, in terms of table, slot and log before it. */
  ghost predicate Safe(w: World, m: Move, now: int) {
    match m
    case Pass => true
    case Change(id, b, newId) =>
      !w.s.enabled || b.start >= b.end ||
      ((id == 0 || id in w.s.table || b.end <= now) && !(w.s.slot.Some? && w.s.slot.value.group == Key(id, newId)))
    case Cancel(id, rows) => id == 0 || !w.s.enabled || BegunSettled(w, Without(w.s.table, id), now)
    case Refresh(rows) => BegunSettled(w, w.s.table, now)
    case SwitchOff => true
  }

  lemma {:induction false} TickCounts(s: State, q: Queue, now: int)
    requires q.list == s.list && q.slot == s.slot
    ensures var r := Tick(q, now);
            r.ran == q.ran && forall e :: Open(s.(list := r.list, slot := r.slot), e) == Open(s, e)
  {
    if q.list != [] {
      assert q.list == [q.list[0]] + q.list[1..];
    }
  }

  lemma {:induction false} SecondCounts(w: World, now: int, phase: int)
    ensures var q := PassSecond(w, now, phase);
            var t := w.s.(list := q.list, slot := q.slot);
            if |q.ran| == |w.ran| then q.ran == w.ran && forall e :: Open(t, e) == Open(w.s, e)
            else
              && |q.ran| == |w.ran| + 1 && q.ran[..|w.ran|] == w.ran
              && q.ran[|w.ran|].at == now && q.ran[|w.ran|].event.time <= now
              && forall e :: Open(t, e) + (if e == q.ran[|w.ran|].event then 1 else 0) == Open(w.s, e)
  {
    TickCounts(w.s, w.Events(), now);
  }

  lemma {:induction false} PassKeepsExact(w: World, now: int, phase: int)
    requires Exact(w)
    ensures var w' := After(w, Pass, now, phase);
            && Exact(w') && |w.ran| <= |w'.ran| && w'.ran[..|w.ran|] == w.ran
            && forall k :: |w.ran| <= k < |w'.ran| ==>
                 var e := w'.ran[k].event;
                 e.group in w.s.table && e in Triple(e.group, w.s.table[e.group]) && !w.Settled(e) && e.time <= now
  {
    var w' := After(w, Pass, now, phase);
    SecondCounts(w, now, phase);
    if |w'.ran| > |w.ran| {
      var x := w'.ran[|w.ran|].event;
      assert Open(w.s, x) > 0 && Open(w.s, x) == Owed(w, x);
      forall e ensures Open(w'.s, e) == Owed(w', e) {
        assert Open(w.s, e) == Owed(w, e);
      }
    } else {
      forall e ensures Open(w'.s, e) == Owed(w', e) {
        assert Open(w.s, e) == Owed(w, e);
      }
    }
  }

  /** A second never disturbs the account, and what it runs is an event of a
      booking as it is stored then, and was not settled. While the schedule is
      off nothing runs. */
  lemma {:induction false} PassKeeps(w: World, now: int, phase: int)
    requires Account(w)
    ensures var w' := After(w, Pass, now, phase);
            && Account(w') && |w.ran| <= |w'.ran| && w'.ran[..|w.ran|] == w.ran && w'.s.enabled == w.s.enabled
            && (!w.s.enabled ==> w'.ran == w.ran)
            && forall k :: |w.ran| <= k < |w'.ran| ==>
                 var e := w'.ran[k].event;
                 e.group in w.s.table && e in Triple(e.group, w.s.table[e.group]) && !w.Settled(e) && e.time <= now
  {
    if w.s.enabled {
      PassKeepsExact(w, now, phase);
    }
  }

  lemma {:induction false} UnstoredNotOpen(w: World, group: nat)
    requires Exact(w) && group !in w.s.table
    ensures forall e :: e in w.s.list ==> e.group != group
    ensures w.s.slot.Some? ==> w.s.slot.value.group != group
  {
    forall e: TimedEvent | e.group == group ensures Open(w.s, e) == 0 {
      assert Open(w.s, e) == Owed(w, e);
    }
    assert w.s.slot.Some? ==> Open(w.s, w.s.slot.value) > 0;
    forall e | e in w.s.list ensures e.group != group {
      assert multiset(w.s.list)[e] > 0;
      assert Open(w.s, e) > 0;
    }
  }

  /** How often setting a booking lists an event. */
  function Listed(id: nat, b: Booking, now: int, e: TimedEvent): nat {
    if b.end > now && e in Triple(id, b) then 1 else 0
  }

  /** How often an event is open after a change. */
  lemma {:induction false} ChangeOpens(w: World, id: nat, b: Booking, newId: nat, now: int, e: TimedEvent)
    requires Exact(w) && Answered(w, Change(id, b, newId), now) && b.start < b.end
    ensures var key, s := Key(id, newId), SetBooking(w.s, id, b, newId, now).0;
            Open(s, e) == if e.group != key then Open(w.s, e)
                          else Listed(key, b, now, e) + (if w.s.slot == Some(e) then 1 else 0)
  {
    if id == 0 {
      UnstoredNotOpen(w, newId);
    }
    SetCounts(w.s, id, b, newId, now);
  }

  lemma {:induction false} ChangeOwes(w: World, id: nat, b: Booking, newId: nat, now: int, phase: int, e: TimedEvent)
    requires Exact(w) && b.start < b.end
    ensures var key, w' := Key(id, newId), After(w, Change(id, b, newId), now, phase);
            Owed(w', e) == if e.group != key then Owed(w, e)
                          else if (id == 0 || id in w.s.table) && b.end > now && e in Triple(key, b) then 1 else 0
  {
  }

  /** The events open after a change, and those that should be. */
  lemma {:induction false} ChangeCounts(w: World, id: nat, b: Booking, newId: nat, now: int, phase: int, e: TimedEvent)
    requires Exact(w) && Answered(w, Change(id, b, newId), now) && b.start < b.end
    ensures var key, w' := Key(id, newId), After(w, Change(id, b, newId), now, phase);
            if e.group != key then Open(w'.s, e) == Owed(w', e)
            else
              && Open(w'.s, e) == Listed(key, b, now, e) + (if w.s.slot == Some(e) then 1 else 0)
              && Owed(w', e) == if (id == 0 || id in w.s.table) && b.end > now && e in Triple(key, b) then 1 else 0
  {
    ChangeOpens(w, id, b, newId, now, e);
    ChangeOwes(w, id, b, newId, now, phase, e);
    assert Open(w.s, e) == Owed(w, e);
  }

  lemma {:induction false} ChangeKeepsIff(w: World, id: nat, b: Booking, newId: nat, now: int, phase: int)
    requires Exact(w) && Answered(w, Change(id, b, newId), now)
    ensures Exact(After(w, Change(id, b, newId), now, phase)) <==> Safe(w, Change(id, b, newId), now)
  {
    if b.start < b.end {
      var m, key := Change(id, b, newId), Key(id, newId);
      var w' := After(w, m, now, phase);
      if Safe(w, m, now) {
        forall e ensures Open(w'.s, e) == Owed(w', e) {
          ChangeCounts(w, id, b, newId, now, phase, e);
        }
      } else if w.s.slot.Some? && w.s.slot.value.group == key {
        ChangeCounts(w, id, b, newId, now, phase, w.s.slot.value);
      } else {
        assert Triple(key, b)[0] in Triple(key, b);
        ChangeCounts(w, id, b, newId, now, phase, Triple(key, b)[0]);
      }
    }
  }

  /** A rebuild for table t: what is open, and what should be. */
  lemma {:induction false} RebuiltCounts(w: World, s: State, rows: seq<Row>, now: int, e: TimedEvent)
    requires IsAnswer(rows, Upcoming(s.table, now)) && s.list == Rebuild(rows) && s.slot.None?
    ensures var w' := Rebuilt(w, s, now);
            var due := if w'.Settled(e) then 0 else Expected(s.table, e);
            && Open(s, e) == Expected(Upcoming(s.table, now), e)
            && (Open(s, e) == due <==> (Expected(s.table, e) == 1 && s.table[e.group].start <= now ==> w.Settled(e)))
  {
    AnswerIsTable(rows, Upcoming(s.table, now));
    RebuildIndexed(rows);
  }

  lemma {:induction false} RebuiltKeepsIff(w: World, s: State, rows: seq<Row>, now: int)
    requires IsAnswer(rows, Upcoming(s.table, now)) && s.list == Rebuild(rows) && s.slot.None? && s.enabled
    ensures Exact(Rebuilt(w, s, now)) <==> BegunSettled(w, s.table, now)
  {
    var w' := Rebuilt(w, s, now);
    if BegunSettled(w, s.table, now) {
      forall e ensures Open(w'.s, e) == Owed(w', e) {
        RebuiltCounts(w, s, rows, now, e);
      }
    }
    if Exact(w') {
      forall id, e | id in s.table && s.table[id].start <= now && e in Triple(id, s.table[id]) ensures w.Settled(e) {
        RebuiltCounts(w, s, rows, now, e);
        assert Open(w'.s, e) == Owed(w', e);
      }
    }
  }

  /** At any time and in any state with the account in order: a move keeps it in
      order exactly when it is safe. While the schedule is on, a change must name a
      stored booking (or one that is over) and must not come while an event of that
      booking is in flight; a rebuild, and switching on, needs all events of
      bookings that have begun to be settled. While it is off, all else is safe. */
  lemma {:induction false} MoveKeepsIff(w: World, m: Move, now: int, phase: int)
    requires Account(w) && Answered(w, m, now)
    ensures Account(After(w, m, now, phase)) <==> Safe(w, m, now)
  {
    match m
    case Pass => PassKeeps(w, now, phase);
    case Change(id, b, newId) =>
      if w.s.enabled {
        ChangeKeepsIff(w, id, b, newId, now, phase);
      }
    case Cancel(id, rows) =>
      if id != 0 && w.s.enabled {
        RebuiltKeepsIff(w, RemoveBooking(w.s, id, rows), rows, now);
      }
    case Refresh(rows) => RebuiltKeepsIff(w, Enable(w.s, true, rows), rows, now);
    case SwitchOff =>
  }

  /** Switching off and on again: nothing is lost or doubled exactly when, of the
      bookings that have begun by then, all events were settled before. */
  lemma {:induction false} OffAndOnIff(w: World, off: int, on: int, rows: seq<Row>, phase: int)
    requires Account(w) && IsAnswer(rows, Upcoming(w.s.table, on))
    ensures Account(After(After(w, SwitchOff, off, phase), Refresh(rows), on, phase)) <==>
            BegunSettled(w, w.s.table, on)
  {
    MoveKeepsIff(w, SwitchOff, off, phase);
    var v := After(w, SwitchOff, off, phase);
    MoveKeepsIff(v, Refresh(rows), on, phase);
    assert BegunSettled(v, v.s.table, on) <==> BegunSettled(w, w.s.table, on);
  }

  /** Switching on a new recorder's schedule. */
  lemma {:induction false} FirstSwitchOn(now: int, phase: int)
    ensures After(NEW_WORLD, Refresh([]), now, phase) == ON_WORLD && Account(NEW_WORLD)
  {
  }

  // ------------------------------------------------------------------
  // Histories
  // ------------------------------------------------------------------

  datatype Moment = Moment(move: Move, now: int)

  function AfterAll(w: World, ms: seq<Moment>, phase: int): World
    decreases |ms|
  {
    if ms == [] then w else AfterAll(After(w, ms[0].move, ms[0].now, phase), ms[1..], phase)
  }

  ghost predicate AllSafe(w: World, ms: seq<Moment>, phase: int)
    decreases |ms|
  {
    ms == [] ||
    (Answered(w, ms[0].move, ms[0].now) && Safe(w, ms[0].move, ms[0].now)
        && AllSafe(After(w, ms[0].move, ms[0].now, phase), ms[1..], phase))
  }

  /** The event ran since its booking was set. */
  ghost predicate RanSince(w: World, e: TimedEvent) {
    exists k :: w.Since(e.group) <= k < |w.ran| && w.ran[k].event == e
  }

  /** What counts as done did run. */
  ghost predicate DoneRan(w: World) {
    && (forall e :: e in w.done ==> RanSince(w, e))
    && (forall id :: w.Since(id) <= |w.ran|)
  }

  lemma {:induction false} MoveKeepsDone(w: World, m: Move, now: int, phase: int)
    requires DoneRan(w)
    ensures DoneRan(After(w, m, now, phase))
  {
    var w' := After(w, m, now, phase);
    SecondCounts(w, now, phase);
    forall id ensures w'.Since(id) <= |w'.ran| {
      assert w.Since(id) <= |w.ran|;
    }
    forall e | e in w'.done ensures RanSince(w', e) {
      if e in w.done {
        var k :| w.Since(e.group) <= k < |w.ran| && w.ran[k].event == e;
        assert w'.Since(e.group) == w.Since(e.group);
        assert m.Pass? ==> w'.ran[k] == w'.ran[..|w.ran|][k];
        assert w'.ran[k].event == e;
      } else {
        assert w'.ran[|w.ran|].event == e;
      }
    }
  }

  lemma {:induction false} HistoryKeepsAccount(w: World, ms: seq<Moment>, phase: int)
    requires Account(w) && DoneRan(w) && AllSafe(w, ms, phase)
    ensures Account(AfterAll(w, ms, phase)) && DoneRan(AfterAll(w, ms, phase))
    decreases |ms|
  {
    if ms != [] {
      MoveKeepsIff(w, ms[0].move, ms[0].now, phase);
      MoveKeepsDone(w, ms[0].move, ms[0].now, phase);
      HistoryKeepsAccount(After(w, ms[0].move, ms[0].now, phase), ms[1..], phase);
    }
  }

  /** Any safe history of bookings set, changed and removed while the queue runs,
      and of switching off and on, that ends with the schedule on: once nothing waits and nothing is in flight,
          every event of every stored
      booking has run since it was set, or was over when it was set. */
  lemma {:induction false} NothingForgotten(ms: seq<Moment>, phase: int, id: nat, e: TimedEvent)
    requires AllSafe(NEW_WORLD, ms, phase)
    requires var w := AfterAll(NEW_WORLD, ms, phase);
             w.s.enabled && w.s.list == [] && w.s.slot.None? && id in w.s.table && e in Triple(id, w.s.table[id])
    ensures var w := AfterAll(NEW_WORLD, ms, phase);
            e in w.over || RanSince(w, e)
  {
    HistoryKeepsAccount(NEW_WORLD, ms, phase);
    EmptyMeansRun(AfterAll(NEW_WORLD, ms, phase), id, e);
  }

  lemma {:induction false} EmptyMeansRun(w: World, id: nat, e: TimedEvent)
    requires Exact(w) && DoneRan(w) && w.s.list == [] && w.s.slot.None? && id in w.s.table
             && e in Triple(id, w.s.table[id])
    ensures e in w.over || RanSince(w, e)
  {
    assert Open(w.s, e) == Owed(w, e);
  }

  /** And whatever the next second runs belongs to a booking as it is stored. */
  lemma {:induction false} NothingStale(ms: seq<Moment>, phase: int, now: int)
    requires AllSafe(NEW_WORLD, ms, phase)
    ensures var w := AfterAll(NEW_WORLD, ms, phase);
            var w' := After(w, Pass, now, phase);
            |w.ran| <= |w'.ran| && forall k :: |w.ran| <= k < |w'.ran| ==>
              var e := w'.ran[k].event; e.group in w.s.table && e in Triple(e.group, w.s.table[e.group])
  {
    HistoryKeepsAccount(NEW_WORLD, ms, phase);
    PassKeeps(AfterAll(NEW_WORLD, ms, phase), now, phase);
  }

  // ------------------------------------------------------------------
  // Timing after the last move
  // ------------------------------------------------------------------

  /** The seconds now + 1 .. end pass. */
  function PassAll(w: World, now: int, end: int, phase: int): World
    requires now <= end
    decreases end - now
  {
    if now == end then w else PassAll(After(w, Pass, now + 1, phase), now + 1, end, phase)
  }

  lemma {:induction false} PassingSeconds(w: World, now: int, end: int, phase: int)
    requires now <= end && Exact(w) && DoneRan(w)
    ensures var w' := PassAll(w, now, end, phase);
            && w'.Events() == Seconds(w.Events(), now, end, phase)
            && w'.s.table == w.s.table && w'.over == w.over && w'.since == w.since
            && Exact(w') && DoneRan(w')
    decreases end - now
  {
    if now < end {
      PassKeepsExact(w, now + 1, phase);
      MoveKeepsDone(w, Pass, now + 1, phase);
      PassingSeconds(After(w, Pass, now + 1, phase), now + 1, end, phase);
    }
  }

  /** After any safe history, whatever is in flight and waiting by then: the open
      events run in order, each exactly at its run time. */
  lemma {:induction false} OpenEventsRun(ms: seq<Moment>, now: int, end: int, phase: int)
    requires AllSafe(NEW_WORLD, ms, phase) && now <= end && AfterAll(NEW_WORLD, ms, phase).s.enabled
    ensures var w := AfterAll(NEW_WORLD, ms, phase);
            var w' := PassAll(w, now, end, phase);
            FollowsLog(w.Events(), w'.Events(), Log(w.Events(), now, phase), end)
  {
    HistoryKeepsAccount(NEW_WORLD, ms, phase);
    var w := AfterAll(NEW_WORLD, ms, phase);
    PassingSeconds(w, now, end, phase);
    RunsFrom(w.Events(), now, end, phase);
  }

  /** And once the last of their run times has come, the queue is empty and every
      event of every stored booking has run since it was set, or was over by then. */
  lemma {:induction false} AllRunInTheEnd(ms: seq<Moment>, now: int, end: int, phase: int, id: nat, e: TimedEvent)
    requires AllSafe(NEW_WORLD, ms, phase) && now <= end && AfterAll(NEW_WORLD, ms, phase).s.enabled
    requires var log := Log(AfterAll(NEW_WORLD, ms, phase).Events(), now, phase); log != [] ==> log[|log| - 1].at <= end
    requires var t := AfterAll(NEW_WORLD, ms, phase).s.table; id in t && e in Triple(id, t[id])
    ensures var w' := PassAll(AfterAll(NEW_WORLD, ms, phase), now, end, phase);
            w'.s.list == [] && w'.s.slot.None? && (e in w'.over || RanSince(w', e))
  {
    HistoryKeepsAccount(NEW_WORLD, ms, phase);
    AllRunFrom(AfterAll(NEW_WORLD, ms, phase), now, end, phase, id, e);
  }

  lemma {:induction false} AllRunFrom(w: World, now: int, end: int, phase: int, id: nat, e: TimedEvent)
    requires Exact(w) && DoneRan(w) && now <= end && id in w.s.table && e in Triple(id, w.s.table[id])
    requires var log := Log(w.Events(), now, phase); log != [] ==> log[|log| - 1].at <= end
    ensures var w' := PassAll(w, now, end, phase);
            w'.s.list == [] && w'.s.slot.None? && (e in w'.over || RanSince(w', e))
  {
    var w' := PassAll(w, now, end, phase);
    PassingSeconds(w, now, end, phase);
    RunsFrom(w.Events(), now, end, phase);
    LogIncreases(w.Events(), now, phase);
    LogRunOut(w.Events(), w'.Events(), Log(w.Events(), now, phase), end);
    EmptyMeansRun(w', id, e);
  }

  lemma {:induction false} LogRunOut(q: Queue, r: Queue, log: seq<Ran>, now: int)
    requires FollowsLog(q, r, log, now) && forall k :: 0 <= k < |log| ==> log[k].at <= log[|log| - 1].at
    requires log != [] ==> log[|log| - 1].at <= now
    ensures r.list == [] && r.slot.None?
  {
    assert |Pending(r)| == |log| - (|r.ran| - |q.ran|) == 0;
  }

  lemma {:induction false} LogIncreases(q: Queue, t0: int, phase: int)
    ensures var log := Log(q, t0, phase); forall k :: 0 <= k < |log| ==> log[k].at <= log[|log| - 1].at
  {
    var log := Log(q, t0, phase);
    forall k | 0 <= k < |log| ensures log[k].at <= log[|log| - 1].at {
      var x := if q.slot.Some? then SlotTime(q.slot.value, t0) else t0;
      var d := if q.slot.Some? then 1 else 0;
      if k >= d {
        RunTimesIncrease(q.list, k - d, |q.list| - 1, x, phase);
      } else if q.list != [] {
        RunTimesIncrease(q.list, 0, |q.list| - 1, x, phase);
        TicksMean(x, phase);
      }
    }
  }

  // ------------------------------------------------------------------
  // Order
  // ------------------------------------------------------------------

  /** The list is time-sorted and all times lie in a window of 2^31 s. */
  ghost predicate Ordered(w: World, win: int) {
    Sorted(w.s.list) && InWindow(w.s.list, win) && TableInWindow(w.s.table, win)
  }

  predicate FitsWindow(m: Move, win: int) {
    m.Change? && m.booking.start < m.booking.end ==> win <= m.booking.start - 60 && m.booking.end < win + 0x8000_0000
  }

  lemma {:induction false} RebuiltInOrder(rows: seq<Row>, t: BookingTable, u: BookingTable, win: int)
    requires IsAnswer(rows, u) && TableInWindow(t, win) && forall id :: id in u ==> id in t && u[id] == t[id]
    ensures Sorted(Rebuild(rows)) && InWindow(Rebuild(rows), win)
  {
    RebuildSorted(rows, win);
  }

  lemma {:induction false} BaseInOrder(s: State, id: nat, win: int)
    requires Sorted(s.list) && InWindow(s.list, win)
    ensures Sorted(BaseList(s, id)) && InWindow(BaseList(s, id), win)
  {
    RemoveGroupKeepsSorted(s.list, id);
    RemoveGroupMembers(s.list, id);
  }

  lemma {:induction false} ChangeKeepsOrder(s: State, id: nat, b: Booking, newId: nat, now: int, win: int)
    requires Sorted(s.list) && InWindow(s.list, win) && TableInWindow(s.table, win)
    requires b.start < b.end ==> win <= b.start - 60 && b.end < win + 0x8000_0000
    ensures var s' := SetBooking(s, id, b, newId, now).0;
            Sorted(s'.list) && InWindow(s'.list, win) && TableInWindow(s'.table, win)
  {
    BaseInOrder(s, id, win);
    if b.start < b.end {
      TranslateSorted(BaseList(s, id), Key(id, newId), b, win);
    }
  }

  lemma {:induction false} MoveKeepsOrder(w: World, m: Move, now: int, phase: int, win: int)
    requires Ordered(w, win) && Answered(w, m, now) && FitsWindow(m, win)
    ensures Ordered(After(w, m, now, phase), win)
  {
    match m
    case Pass =>
    case Change(id, b, newId) => ChangeKeepsOrder(w.s, id, b, newId, now, win);
    case Cancel(id, rows) =>
      if id != 0 && w.s.enabled {
        RebuiltInOrder(rows, w.s.table, Upcoming(Without(w.s.table, id), now), win);
      }
    case Refresh(rows) => RebuiltInOrder(rows, w.s.table, Upcoming(w.s.table, now), win);
    case SwitchOff =>
  }

  ghost predicate AllFit(w: World, ms: seq<Moment>, phase: int, win: int)
    decreases |ms|
  {
    ms == [] ||
    (Answered(w, ms[0].move, ms[0].now) && FitsWindow(ms[0].move, win)
        && AllFit(After(w, ms[0].move, ms[0].now, phase), ms[1..], phase, win))
  }

  /** Any history, safe or not, keeps the list sorted within such a window. */
  lemma {:induction false} HistoryKeepsOrder(w: World, ms: seq<Moment>, phase: int, win: int)
    requires Ordered(w, win) && AllFit(w, ms, phase, win)
    ensures Ordered(AfterAll(w, ms, phase), win)
    decreases |ms|
  {
    if ms != [] {
      MoveKeepsOrder(w, ms[0].move, ms[0].now, phase, win);
      HistoryKeepsOrder(After(w, ms[0].move, ms[0].now, phase), ms[1..], phase, win);
    }
  }

  // ------------------------------------------------------------------
  // What happens without the conditions
  // ------------------------------------------------------------------

  lemma {:induction false} InsertLast(list: seq<TimedEvent>, e: TimedEvent)
    requires forall k :: 0 <= k < |list| ==> 0 < e.time - list[k].time < 0x8000_0000
    ensures InsertSorted(list, e) == list + [e]
  {
    if list != [] {
      InsertLast(list[1..], e);
      assert list + [e] == [list[0]] + (list[1..] + [e]);
    }
  }

  lemma {:induction false} TranslateLast(list: seq<TimedEvent>, id: nat, b: Booking)
    requires b.start < b.end && forall k :: 0 <= k < |list| ==>
             0 < b.start - 60 - list[k].time && b.end - list[k].time < 0x8000_0000
    requires b.end - b.start < 0x7000_0000
    ensures Translate(list, id, b) == list + Triple(id, b)
  {
    var t := Triple(id, b);
    InsertLast(list, t[0]);
    InsertLast(list + [t[0]], t[1]);
    InsertLast(list + [t[0]] + [t[1]], t[2]);
  }

  /** A tick takes a head that is due soon into the slot. */
  lemma {:induction false} PicksUp(w: World, now: int, phase: int)
    requires w.s.enabled && IsTick(now, phase) && w.s.slot.None? && w.s.list != [] && now < w.s.list[0].time <= now + 30
    ensures var w' := After(w, Pass, now, phase);
            w'.s == w.s.(list := w.s.list[1..], slot := Some(w.s.list[0])) && w'.ran == w.ran
  {
  }

  /** The event in flight runs when its time has come. */
  lemma {:induction false} RunsNow(w: World, e: TimedEvent, now: int, phase: int)
    requires w.s.slot == Some(e) && e.time <= now
    ensures var w' := After(w, Pass, now, phase);
            w'.s == w.s.(slot := None) && w'.ran == w.ran + [Ran(e, now)]
  {
  }

  /** A booking behind everything else that is listed. */
  lemma {:induction false} Books(w: World, id: nat, b: Booking, newId: nat, now: int, phase: int)
    requires b.start < b.end && b.end > now && b.end - b.start < 0x7000_0000 && (id == 0 || id in w.s.table)
    requires forall k :: 0 <= k < |w.s.list| ==>
               w.s.list[k].group != Key(id, newId) && 0 < b.start - 60 - w.s.list[k].time
                   && b.end - w.s.list[k].time < 0x8000_0000
    ensures var key, w' := Key(id, newId), After(w, Change(id, b, newId), now, phase);
            w'.s == w.s.(table := w.s.table[key := b], list := w.s.list + Triple(key, b)) && w'.ran == w.ran
  {
    if id != 0 {
      NothingRemoved(w.s.list, id);
    }
    TranslateLast(w.s.list, Key(id, newId), b);
  }

  /** Setting a booking leaves the slot and the log alone. */
  lemma {:induction false} Rebooks(w: World, id: nat, b: Booking, newId: nat, now: int, phase: int)
    requires b.start < b.end && (id == 0 || id in w.s.table)
    ensures var w' := After(w, Change(id, b, newId), now, phase);
            w'.s.slot == w.s.slot && w'.s.table == w.s.table[Key(id, newId) := b] && w'.ran == w.ran
  {
  }

  /** Removing a booking when none starts later. */
  lemma {:induction false} Empties(w: World, id: nat, now: int, phase: int)
    requires id != 0 && w.s.enabled
    ensures var w' := After(w, Cancel(id, []), now, phase);
            w'.s == State(Without(w.s.table, id), [], None, true) && w'.ran == w.ran
  {
  }

  lemma {:induction false} NothingRemoved(list: seq<TimedEvent>, group: nat)
    requires forall k :: 0 <= k < |list| ==> list[k].group != group
    ensures RemoveGroup(list, group) == list
  {
    if list != [] {
      NothingRemoved(list[1..], group);
    }
  }

  /** A booking with a tick in the half minute before its tune-in. */
  predicate Tickable(b: Booking, tick: int, phase: int) {
    b.start < b.end < b.start + 0x7000_0000 && IsTick(tick, phase) && tick < b.start - 60 <= tick + 30
  }

  function Booked(b: Booking, n: nat, tick: int, phase: int): World {
    After(ON_WORLD, Change(0, b, n), tick, phase)
  }

  /** The tune-in of a new booking has been picked up. */
  function Picked(b: Booking, n: nat, tick: int, phase: int): World {
    After(Booked(b, n, tick, phase), Pass, tick, phase)
  }

  lemma {:induction false} PickedUp(b: Booking, n: nat, tick: int, phase: int)
    requires Tickable(b, tick, phase) && n != 0
    ensures var w, t := Picked(b, n, tick, phase), Triple(n, b);
            w.s == State(map[n := b], [t[1], t[2]], Some(t[0]), true) && w.ran == []
  {
    Books(ON_WORLD, 0, b, n, tick, phase);
    var w1 := Booked(b, n, tick, phase);
    assert w1.s.list == [] + Triple(n, b) == Triple(n, b);
    PicksUp(w1, tick, phase);
  }

  /** Set any booking, let its tune-in be picked up, move the booking: the old
      tune-in stays in flight and runs at its old time. */
  lemma {:induction false} StaleTuneIn(b: Booking, b': Booking, n: nat, tick: int, phase: int)
    requires Tickable(b, tick, phase) && n != 0 && b.start < b'.start < b'.end
    ensures var w, e := After(Picked(b, n, tick, phase), Change(n, b', n), tick, phase), Triple(n, b)[0];
            && w.s.slot == Some(e) && w.s.table == map[n := b'] && e !in Triple(n, b')
            && After(w, Pass, e.time, phase).ran == [Ran(e, e.time)]
  {
    PickedUp(b, n, tick, phase);
    var before, e := Picked(b, n, tick, phase), Triple(n, b)[0];
    Rebooks(before, n, b', n, tick, phase);
    var w := After(before, Change(n, b', n), tick, phase);
    assert w.s.table == map[n := b'];
    RunsNow(w, e, e.time, phase);
  }

  /** The booking has been tuned in and started, in time. */
  function UnderWay(b: Booking, n: nat, tick: int, phase: int): World {
    After(After(After(Picked(b, n, tick, phase), Pass, b.start - 60, phase), Pass, tick + 60, phase), Pass, b.start,
        phase)
  }

  lemma {:induction false} Started(b: Booking, n: nat, tick: int, phase: int)
    requires Tickable(b, tick, phase) && n != 0
    ensures var w, t := UnderWay(b, n, tick, phase), Triple(n, b);
            && w.s == State(map[n := b], [t[2]], None, true)
            && w.ran == [Ran(t[0], b.start - 60), Ran(t[1], b.start)]
  {
    var t := Triple(n, b);
    PickedUp(b, n, tick, phase);
    var w2 := Picked(b, n, tick, phase);
    RunsNow(w2, t[0], b.start - 60, phase);
    var w3 := After(w2, Pass, b.start - 60, phase);
    assert w3.ran == [Ran(t[0], b.start - 60)];
    PicksUp(w3, tick + 60, phase);
    var w4 := After(w3, Pass, tick + 60, phase);
    assert w4.s.list == [t[2]] && w4.s.slot == Some(t[1]);
    RunsNow(w4, t[1], b.start, phase);
  }

  /** The stop of a running booking is lost: after another booking was removed, no
      event of the running one ever runs, until the next move. */
  lemma {:induction false} LostStop(s: State, gone: nat, rows: seq<Row>, now: int, id: nat, end: int, phase: int)
    requires gone != 0 && s.enabled && IsAnswer(rows, Upcoming(Without(s.table, gone), now)) && now <= end
    requires id in s.table && id != gone && s.table[id].start <= now
    ensures var q := Seconds(Queue(RemoveBooking(s, gone, rows).list, None, []), now, end, phase);
            forall k :: 0 <= k < |q.ran| ==> q.ran[k].event.group != id
  {
    var list := RemoveBooking(s, gone, rows).list;
    RebuildKeepsUpcoming(s, gone, rows, now);
    RunsOnSchedule(list, now, end, phase);
    var q := Seconds(Queue(list, None, []), now, end, phase);
    forall k | 0 <= k < |q.ran| ensures q.ran[k].event.group != id {
      assert list[k] in list;
      assert multiset(list)[list[k]] == Expected(Upcoming(RemoveBooking(s, gone, rows).table, now), list[k]);
    }
  }

  lemma {:induction false} LogsFirst(rows: seq<Row>, ran: seq<Ran>)
    requires rows != [] && Logs(ran, Plan(rows)) && |ran| == 3 * |rows|
    ensures Logs(ran[..3], Triple(rows[0].id, rows[0].booking)) && Logs(ran[3..], Plan(rows[1..]))
  {
    PlanFirst(rows);
    var t, p := Triple(rows[0].id, rows[0].booking), Plan(rows[1..]);
    forall k | 0 <= k < 3 ensures ran[..3][k].event == t[k] {
      assert Plan(rows)[k] == t[k];
    }
    forall k | 0 <= k < |ran[3..]| ensures ran[3..][k].event == p[k] {
      assert Plan(rows)[k + 3] == p[k];
    }
  }

  /** The events of a booking while something else is being recorded. */
  lemma {:induction false} RunTripleLate(r: R.Recorder, ran: seq<Ran>, row: Row, a: R.Answers)
    requires r.status.Recording? && AllWell(a) && Logs(ran, Triple(row.id, row.booking))
    ensures var r' := RunEvent(RunEvent(RunEvent(r, ran[0], a), ran[1], a), ran[2], a);
            !r'.status.Recording? &&
            r'.segments == r.segments +
              if row.booking.channel == r.channel then [R.Segment(r.channel, r.start, ran[2].at)]
              else [R.Segment(r.channel, r.start, ran[0].at), R.Segment(row.booking.channel, ran[1].at, ran[2].at)]
  {
  }

  /** Otherwise the next booking ends it: at its tune-in when that is to another
      channel, and else not before its stop, with its own start refused. */
  lemma {:induction false} NextBookingEndsIt(r: R.Recorder, rows: seq<Row>, ran: seq<Ran>, a: R.Answers)
    requires r.status.Recording? && AllWell(a) && rows != [] && Logs(ran, Plan(rows)) && |ran| == 3 * |rows|
    ensures var b := rows[0].booking;
            RunAll(r, ran, a).segments ==
            r.segments
            + (if b.channel == r.channel then [R.Segment(r.channel, r.start, ran[2].at)]
               else [R.Segment(r.channel, r.start, ran[0].at), R.Segment(b.channel, ran[1].at, ran[2].at)])
            + Recordings(rows[1..], ran[3..])
  {
    var head, rest := ran[..3], ran[3..];
    assert ran == head + rest;
    LogsFirst(rows, ran);
    RunAppend(r, head, rest, a);
    RunThree(r, head, a);
    RunTripleLate(r, head, rows[0], a);
    PlanRecords(RunAll(r, head, a), rows[1..], rest, a);
  }

  /** Book something else beside a running booking, and remove that again. */
  lemma {:induction false} BookAndDrop(w: World, b': Booking, n': nat, now: int, phase: int)
    requires w.s.enabled && n' != 0 && n' !in w.s.table && b'.start < b'.end
    ensures var w' := After(After(w, Change(0, b', n'), now, phase), Cancel(n', []), now, phase);
            w'.s == State(w.s.table, [], None, true) && w'.ran == w.ran
  {
    Rebooks(w, 0, b', n', now, phase);
    var w1 := After(w, Change(0, b', n'), now, phase);
    Empties(w1, n', now, phase);
    assert Without(w1.s.table, n') == w.s.table;
  }

  /** The lost stop is real: let any booking start, book another one and remove
      that again. The recording is then never stopped. */
  lemma {:induction false} LostStopHappens(b: Booking, n: nat, b': Booking, n': nat, tick: int, phase: int, end: int,
      a: R.Answers)
    requires Tickable(b, tick, phase) && b.start <= end && AllWell(a)
    requires n != 0 && n' != 0 && n != n' && b'.start < b'.end
    ensures var before := UnderWay(b, n, tick, phase);
            var w := After(After(before, Change(0, b', n'), b.start, phase), Cancel(n', []), b.start, phase);
            && IsAnswer([], Upcoming(map[n := b], b.start))
            && before.s.list == [Triple(n, b)[2]] && RunAll(R.NEW_RECORDER, before.ran, a).status.Recording?
            && w.s == State(map[n := b], [], None, true) && w.ran == before.ran
            && RunAll(R.NEW_RECORDER, Seconds(w.Events(), b.start, end, phase).ran, a) ==
                 RunAll(R.NEW_RECORDER, before.ran, a)
  {
    var before := UnderWay(b, n, tick, phase);
    Started(b, n, tick, phase);
    BookAndDrop(before, b', n', b.start, phase);
    StartRecords(before.ran, n, b, a);
    QueueStaysEmpty(Queue([], None, before.ran), b.start, end, phase);
  }

  lemma {:induction false} StartRecords(ran: seq<Ran>, n: nat, b: Booking, a: R.Answers)
    requires AllWell(a) && |ran| == 2 && ran[0].event == Triple(n, b)[0] && ran[1].event == Triple(n, b)[1]
    ensures RunAll(R.NEW_RECORDER, ran, a).status.Recording?
  {
    var x, y := ran[0], ran[1];
    assert ran == [x] + [y];
    RunAppend(R.NEW_RECORDER, [x], [y], a);
    RunOne(R.NEW_RECORDER, x, a);
    RunOne(RunEvent(R.NEW_RECORDER, x, a), y, a);
  }

  lemma {:induction false} QueueStaysEmpty(q: Queue, now: int, end: int, phase: int)
    requires q.list == [] && q.slot.None? && now <= end
    ensures Seconds(q, now, end, phase) == q
    decreases end - now
  {
    if now < end {
      QueueStaysEmpty(q, now + 1, end, phase);
    }
  }
}
