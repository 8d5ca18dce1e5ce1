/** From bookings to recordings: the timed queue drives the recorder. */
module RecordingPlan {
  import opened Bytes
  import opened TimedEvents
  import opened Punctuality
  import opened Scheduled
  import R = RecorderState

  // ------------------------------------------------------------------
  // The plan of a set of bookings
  // ------------------------------------------------------------------

  /** Bookings in start order, each ending more than a minute before the next starts. */
  ghost predicate Spaced(rows: seq<Row>) {
    && (forall i :: 0 <= i < |rows| ==> rows[i].booking.start < rows[i].booking.end)
    && (forall i :: 0 < i < |rows| ==> rows[i - 1].booking.end + 60 < rows[i].booking.start)
  }

  function Plan(rows: seq<Row>): seq<TimedEvent> {
    if rows == [] then [] else Plan(rows[..|rows| - 1]) + Triple(rows[|rows| - 1].id, rows[|rows| - 1].booking)
  }

  ghost predicate Increasing(list: seq<TimedEvent>) {
    forall i, j :: 0 <= i < j < |list| ==> list[i].time < list[j].time
  }

  lemma {:induction false} PlanShape(rows: seq<Row>)
    ensures |Plan(rows)| == 3 * |rows|
    ensures forall i :: 0 <= i < |rows| ==> Plan(rows)[3 * i..3 * i + 3] == Triple(rows[i].id, rows[i].booking)
  {
    if rows != [] {
      var before := rows[..|rows| - 1];
      PlanShape(before);
      forall i | 0 <= i < |rows| ensures Plan(rows)[3 * i..3 * i + 3] == Triple(rows[i].id, rows[i].booking) {
        if i < |before| {
          assert Plan(rows)[3 * i..3 * i + 3] == Plan(before)[3 * i..3 * i + 3];
          assert before[i] == rows[i];
        }
      }
    }
  }

  lemma {:induction false} PlanFirst(rows: seq<Row>)
    requires rows != []
    ensures Plan(rows) == Triple(rows[0].id, rows[0].booking) + Plan(rows[1..])
  {
    var n := |rows| - 1;
    if n == 0 {
      assert rows[..0] == [] && rows[1..] == [];
    } else {
      PlanFirst(rows[..n]);
      assert rows[..n][1..] == rows[1..][..n - 1];
    }
  }

  lemma {:induction false} IncreasingAppend(a: seq<TimedEvent>, b: seq<TimedEvent>, t: int)
    requires Increasing(a) && Increasing(b)
    requires (forall i :: 0 <= i < |a| ==> a[i].time <= t) && forall i :: 0 <= i < |b| ==> t < b[i].time
    ensures Increasing(a + b)
  {
  }

  lemma {:induction false} PlanIncreasing(rows: seq<Row>)
    requires Spaced(rows)
    ensures Increasing(Plan(rows))
    ensures rows != [] ==> forall i :: 0 <= i < |Plan(rows)| ==> Plan(rows)[i].time <= rows[|rows| - 1].booking.end
  {
    if rows != [] {
      var before, last := rows[..|rows| - 1], rows[|rows| - 1];
      PlanIncreasing(before);
      var t := if before == [] then last.booking.start - 61 else before[|before| - 1].booking.end;
      assert before != [] ==> before[|before| - 1] == rows[|rows| - 2];
      assert before == [] ==> Plan(before) == [];
      IncreasingAppend(Plan(before), Triple(last.id, last.booking), t);
    }
  }

  lemma {:induction false} HeadsEqual(a: seq<TimedEvent>, b: seq<TimedEvent>)
    requires Sorted(a) && Increasing(b) && multiset(a) == multiset(b) && a != [] && b != []
    ensures a[0] == b[0]
  {
    assert b[0] in multiset(a) && a[0] in multiset(b);
    var i :| 0 <= i < |a| && a[i] == b[0];
    var j :| 0 <= j < |b| && b[j] == a[0];
  }

  lemma {:induction false} TailMembers(a: seq<TimedEvent>)
    requires a != []
    ensures multiset(a[1..]) == multiset(a) - multiset{a[0]}
  {
    assert a == [a[0]] + a[1..];
  }

  lemma {:induction false} SortedIsUnique(a: seq<TimedEvent>, b: seq<TimedEvent>)
    requires Sorted(a) && Increasing(b) && multiset(a) == multiset(b)
    ensures a == b
  {
    assert |multiset(a)| == |a| && |multiset(b)| == |b|;
    if b != [] {
      HeadsEqual(a, b);
      TailMembers(a);
      TailMembers(b);
      SortedIsUnique(a[1..], b[1..]);
    }
  }

  lemma {:induction false} AppendIndexed(list: seq<TimedEvent>, t: BookingTable, id: nat, b: Booking)
    requires Indexed(list, t) && id !in t
    ensures Indexed(list + Triple(id, b), t[id := b])
  {
    TranslateIndexed(list, t, id, b);
    TranslateAdds(list, id, b);
    forall e ensures multiset(list + Triple(id, b))[e] == Expected(t[id := b], e) {
      assert multiset(Triple(id, b))[e] == if e in Triple(id, b) then 1 else 0;
      assert multiset(Translate(list, id, b))[e] == Expected(t[id := b], e);
    }
  }

  lemma {:induction false} PlanIndexed(rows: seq<Row>)
    requires forall i, j :: 0 <= i < j < |rows| ==> rows[i].id != rows[j].id
    ensures Indexed(Plan(rows), TableOf(rows))
  {
    if rows != [] {
      var before, last := rows[..|rows| - 1], rows[|rows| - 1];
      assert forall i :: 0 <= i < |before| ==> before[i] == rows[i] && before[i].id != last.id;
      PlanIndexed(before);
      TableOfRows(before);
      AppendIndexed(Plan(before), TableOf(before), last.id, last.booking);
    }
  }

  /** In whatever order spaced bookings were set, the list is their plan. */
  lemma {:induction false} ListIsPlan(list: seq<TimedEvent>, rows: seq<Row>)
    requires Sorted(list) && Indexed(list, TableOf(rows)) && Spaced(rows)
    requires forall i, j :: 0 <= i < j < |rows| ==> rows[i].id != rows[j].id
    ensures list == Plan(rows)
  {
    PlanIndexed(rows);
    PlanIncreasing(rows);
    forall e ensures multiset(list)[e] == multiset(Plan(rows))[e] {
      assert multiset(list)[e] == Expected(TableOf(rows), e);
    }
    SortedIsUnique(list, Plan(rows));
  }

  // ------------------------------------------------------------------
  // Running the plan
  // ------------------------------------------------------------------

  /** What running one timed event does to the recorder. */
  function RunEvent(r: R.Recorder, ran: Ran, a: R.Answers): R.Recorder {
    match ran.event.kind
    case TuneIn(c) => R.SetChannel(r, c, ran.at, a)
    case RecordStart => R.RecordStart(r, ran.at, a)
    case RecordStop => R.RecordStop(r, ran.at)
  }

  function RunAll(r: R.Recorder, ran: seq<Ran>, a: R.Answers): R.Recorder {
    if ran == [] then r else RunEvent(RunAll(r, ran[..|ran| - 1], a), ran[|ran| - 1], a)
  }

  /** Channels found, stream running, file opened. */
  predicate AllWell(a: R.Answers) { a.found && a.streaming && a.named && a.handle.Some? }

  /** The events of a log. */
  ghost predicate Logs(ran: seq<Ran>, events: seq<TimedEvent>) {
    |ran| == |events| && forall k :: 0 <= k < |ran| ==> ran[k].event == events[k]
  }

  lemma {:induction false} RunTriple(r: R.Recorder, ran: seq<Ran>, row: Row, a: R.Answers)
    requires !r.status.Recording? && AllWell(a) && Logs(ran, Triple(row.id, row.booking))
    ensures var r' := RunEvent(RunEvent(RunEvent(r, ran[0], a), ran[1], a), ran[2], a);
            !r'.status.Recording? && r'.segments == r.segments + [R.Segment(row.booking.channel, ran[1].at, ran[2].at)]
  {
  }

  lemma {:induction false} RunLastThree(r: R.Recorder, ran: seq<Ran>, a: R.Answers)
    requires |ran| >= 3
    ensures var n := |ran|;
            var r' := RunAll(r, ran[..n - 3], a);
            RunAll(r, ran, a) == RunEvent(RunEvent(RunEvent(r', ran[n - 3], a), ran[n - 2], a), ran[n - 1], a)
  {
    var n := |ran|;
    assert ran[..n - 1][..n - 2] == ran[..n - 2] && ran[..n - 2][..n - 3] == ran[..n - 3];
    assert RunAll(r, ran[..n - 2], a) == RunEvent(RunAll(r, ran[..n - 3], a), ran[n - 3], a);
    assert RunAll(r, ran[..n - 1], a) == RunEvent(RunAll(r, ran[..n - 2], a), ran[n - 2], a);
  }

  lemma {:induction false} RunAppend(r: R.Recorder, x: seq<Ran>, y: seq<Ran>, a: R.Answers)
    ensures RunAll(r, x + y, a) == RunAll(RunAll(r, x, a), y, a)
    decreases |y|
  {
    if y == [] {
      assert x + y == x;
    } else {
      var n := |y| - 1;
      assert (x + y)[..|x + y| - 1] == x + y[..n];
      RunAppend(r, x, y[..n], a);
    }
  }

  lemma {:induction false} RunThree(r: R.Recorder, ran: seq<Ran>, a: R.Answers)
    requires |ran| == 3
    ensures RunAll(r, ran, a) == RunEvent(RunEvent(RunEvent(r, ran[0], a), ran[1], a), ran[2], a)
  {
    RunLastThree(r, ran, a);
    assert ran[..0] == [];
  }

  lemma {:induction false} RunOne(r: R.Recorder, x: Ran, a: R.Answers)
    ensures RunAll(r, [x], a) == RunEvent(r, x, a)
  {
    assert [x][..0] == [];
    assert RunAll(r, [], a) == r;
  }

  /** The recordings that the runs of a plan should give. */
  function Recordings(rows: seq<Row>, ran: seq<Ran>): seq<R.Segment>
    requires |ran| == 3 * |rows|
  {
    seq(|rows|, i requires 0 <= i < |rows| => R.Segment(rows[i].booking.channel, ran[3 * i + 1].at, ran[3 * i + 2].at))
  }

  lemma {:induction false} RecordingsSnoc(rows: seq<Row>, ran: seq<Ran>)
    requires rows != [] && |ran| == 3 * |rows|
    ensures var n := |rows| - 1;
            Recordings(rows, ran)
            == Recordings(rows[..n], ran[..3 * n])
                + [R.Segment(rows[n].booking.channel, ran[3 * n + 1].at, ran[3 * n + 2].at)]
  {
  }

  /** The log of a plan is the log of its first bookings and of the last one. */
  lemma {:induction false} LogsSplit(rows: seq<Row>, ran: seq<Ran>)
    requires rows != [] && Logs(ran, Plan(rows)) && |ran| == 3 * |rows|
    ensures var n := |rows| - 1;
            Logs(ran[..3 * n], Plan(rows[..n])) && Logs(ran[3 * n..], Triple(rows[n].id, rows[n].booking))
  {
    var n := |rows| - 1;
    PlanShape(rows[..n]);
    assert Plan(rows) == Plan(rows[..n]) + Triple(rows[n].id, rows[n].booking);
  }

  /** Running a whole plan records exactly one segment per booking, on its
      channel, in start order, from the run of its start to the run of its stop. */
  lemma {:induction false} PlanRecords(r: R.Recorder, rows: seq<Row>, ran: seq<Ran>, a: R.Answers)
    requires !r.status.Recording? && AllWell(a) && Logs(ran, Plan(rows)) && |ran| == 3 * |rows|
    ensures var r' := RunAll(r, ran, a);
            !r'.status.Recording? && r'.segments == r.segments + Recordings(rows, ran)
  {
    if rows == [] {
      assert r.segments + [] == r.segments;
    } else {
      var n := |rows| - 1;
      LogsSplit(rows, ran);
      PlanRecords(r, rows[..n], ran[..3 * n], a);
      RunLastThree(r, ran, a);
      RunTriple(RunAll(r, ran[..3 * n], a), ran[3 * n..], rows[n], a);
      RecordingsSnoc(rows, ran);
    }
  }

  // ------------------------------------------------------------------
  // The timed queue, second by second
  // ------------------------------------------------------------------

  /** A tick falls into every booking, after its start and up to its end. */
  ghost predicate Ticked(rows: seq<Row>, phase: int) {
    forall i :: 0 <= i < |rows| ==> NextTick(rows[i].booking.start, phase) <= rows[i].booking.end
  }

  /** The first start can follow its tune-in, which waits for a tick after t0. */
  predicate EarlyEnough(rows: seq<Row>, t0: int, phase: int) {
    rows != [] ==>
      var start := rows[0].booking.start;
      NextTick(Max(start - 60, NextTick(t0, phase)), phase) <= start
  }

  /** Both conditions hold at every phase of the ticks exactly for bookings of half
      a minute or more, the first at least a minute ahead. */
  lemma {:induction false} HalfMinuteIff(rows: seq<Row>, t0: int)
    ensures (forall phase: int :: Ticked(rows, phase)) <==>
            forall i :: 0 <= i < |rows| ==> rows[i].booking.start + 30 <= rows[i].booking.end
    ensures (forall phase: int :: EarlyEnough(rows, t0, phase)) <==> (rows != [] ==> t0 + 60 <= rows[0].booking.start)
  {
    if rows != [] && (forall phase: int :: EarlyEnough(rows, t0, phase)) {
      assert EarlyEnough(rows, t0, t0);
      assert NextTick(t0, t0) == t0 + 30 && NextTick(t0 + 30, t0) == t0 + 60;
    }
    if forall phase: int :: Ticked(rows, phase) {
      forall i | 0 <= i < |rows| ensures rows[i].booking.start + 30 <= rows[i].booking.end {
        assert Ticked(rows, rows[i].booking.start);
        TicksMean(rows[i].booking.start, rows[i].booking.start);
      }
    }
  }

  lemma {:induction false} PlanTimes(rows: seq<Row>, i: nat)
    requires i < |rows|
    ensures |Plan(rows)| == 3 * |rows|
    ensures var p, b := Plan(rows), rows[i].booking;
            p[3 * i].time == b.start - 60 && p[3 * i + 1].time == b.start && p[3 * i + 2].time == b.end
  {
    PlanShape(rows);
    var t := Plan(rows)[3 * i..3 * i + 3];
    assert t == Triple(rows[i].id, rows[i].booking);
    assert Plan(rows)[3 * i] == t[0] && Plan(rows)[3 * i + 1] == t[1] && Plan(rows)[3 * i + 2] == t[2];
  }

  /** A start runs on time when the stop before it did, and the first one when it is
      early enough. */
  lemma {:induction false} StartOnTime(rows: seq<Row>, i: nat, t0: int, phase: int)
    requires Spaced(rows) && EarlyEnough(rows, t0, phase) && i < |rows| && |Plan(rows)| == 3 * |rows|
    requires i > 0 ==> RunTime(Plan(rows), 3 * i - 1, t0, phase) == rows[i - 1].booking.end
    ensures RunTime(Plan(rows), 3 * i + 1, t0, phase) == rows[i].booking.start
  {
    var p, b := Plan(rows), rows[i].booking;
    PlanTimes(rows, i);
    Punctual(p, 3 * i, t0, phase);
    Punctual(p, 3 * i + 1, t0, phase);
    TicksMean(RunTime(p, 3 * i, t0, phase), phase);
    assert i == 0 ==> RunTime(p, 0, t0, phase) == Max(b.start - 60, NextTick(t0, phase));
  }

  lemma {:induction false} StartsAndStopsOnTime(rows: seq<Row>, i: nat, t0: int, phase: int)
    requires Spaced(rows) && EarlyEnough(rows, t0, phase) && Ticked(rows, phase) && i < |rows|
             && |Plan(rows)| == 3 * |rows|
    ensures RunTime(Plan(rows), 3 * i + 1, t0, phase) == rows[i].booking.start
    ensures RunTime(Plan(rows), 3 * i + 2, t0, phase) == rows[i].booking.end
  {
    if i > 0 {
      StartsAndStopsOnTime(rows, i - 1, t0, phase);
    }
    StartOnTime(rows, i, t0, phase);
    PlanTimes(rows, i);
    Punctual(Plan(rows), 3 * i + 2, t0, phase);
  }

  ghost predicate AllOnTime(rows: seq<Row>, t0: int, phase: int)
    requires |Plan(rows)| == 3 * |rows|
  {
    forall i :: 0 <= i < |rows| ==>
      RunTime(Plan(rows), 3 * i + 1, t0, phase) == rows[i].booking.start
          && RunTime(Plan(rows), 3 * i + 2, t0, phase) == rows[i].booking.end
  }

  /** Every start and every stop runs on the second exactly when the two
      conditions on the bookings hold. */
  lemma {:induction false} AllOnTimeIff(rows: seq<Row>, t0: int, phase: int)
    requires Spaced(rows) && |Plan(rows)| == 3 * |rows|
    ensures AllOnTime(rows, t0, phase) <==> EarlyEnough(rows, t0, phase) && Ticked(rows, phase)
  {
    var p := Plan(rows);
    if AllOnTime(rows, t0, phase) {
      forall i | 0 <= i < |rows| ensures NextTick(rows[i].booking.start, phase) <= rows[i].booking.end {
        PlanTimes(rows, i);
        Punctual(p, 3 * i + 2, t0, phase);
      }
      if rows != [] {
        PlanTimes(rows, 0);
        Punctual(p, 1, t0, phase);
        assert RunTime(p, 1, t0, phase) == rows[0].booking.start;
        assert RunTime(p, 0, t0, phase) == Max(p[0].time, NextTick(t0, phase));
      }
    } else if EarlyEnough(rows, t0, phase) && Ticked(rows, phase) {
      forall i | 0 <= i < |rows|
        ensures RunTime(p, 3 * i + 1, t0, phase) == rows[i].booking.start
                && RunTime(p, 3 * i + 2, t0, phase) == rows[i].booking.end
      {
        StartsAndStopsOnTime(rows, i, t0, phase);
      }
    }
  }

  /** The segments a set of bookings asks for. */
  function Wanted(rows: seq<Row>): seq<R.Segment> {
    seq(|rows|, i requires 0 <= i < |rows| => R.Segment(rows[i].booking.channel, rows[i].booking.start,
        rows[i].booking.end))
  }

  /** When the last event of a plan has run. */
  function Finish(rows: seq<Row>, t0: int, phase: int): int {
    RunTime(Plan(rows), |Plan(rows)| - 1, t0, phase)
  }

  /** From then on the whole plan has run, at its run times. */
  lemma {:induction false} PlanRuns(rows: seq<Row>, t0: int, end: int, phase: int)
    requires t0 <= end && Finish(rows, t0, phase) <= end
    ensures var q := Seconds(Queue(Plan(rows), None, []), t0, end, phase);
            && q.list == [] && q.slot.None? && |Plan(rows)| == 3 * |rows| && Logs(q.ran, Plan(rows))
            && forall k :: 0 <= k < |q.ran| ==> q.ran[k].at == RunTime(Plan(rows), k, t0, phase)
  {
    PlanShape(rows);
    RunsOnSchedule(Plan(rows), t0, end, phase);
    if rows != [] {
      RunByThen(Plan(rows), t0, end, phase, |Plan(rows)| - 1);
    }
    assert |Pending(Seconds(Queue(Plan(rows), None, []), t0, end, phase))| == 0;
  }

  /** What is recorded is what was wanted exactly when all runs are on time. */
  lemma {:induction false} RecordingsWantedIff(rows: seq<Row>, ran: seq<Ran>, t0: int, phase: int)
    requires |Plan(rows)| == |ran| == 3 * |rows|
    requires forall k :: 0 <= k < |ran| ==> ran[k].at == RunTime(Plan(rows), k, t0, phase)
    ensures Recordings(rows, ran) == Wanted(rows) <==> AllOnTime(rows, t0, phase)
  {
    if Recordings(rows, ran) == Wanted(rows) {
      forall i | 0 <= i < |rows|
        ensures RunTime(Plan(rows), 3 * i + 1, t0, phase) == rows[i].booking.start
        ensures RunTime(Plan(rows), 3 * i + 2, t0, phase) == rows[i].booking.end
      {
        assert Recordings(rows, ran)[i] == Wanted(rows)[i];
      }
    }
  }

  lemma {:induction false} SamePrefix<T>(a: seq<T>, b: seq<T>, c: seq<T>)
    ensures a + b == a + c <==> b == c
  {
    assert (a + b)[|a|..] == b && (a + c)[|a|..] == c;
  }

  /** The whole chain: spaced bookings set in any order, the half-minute timer at
      any phase, the queue run second by second until it is empty. There is
      exactly one recording per booking, on its channel and in order, from the run
      of its start to the run of its stop; and these are the booked times exactly
      when the list was ready early enough and a tick falls into every booking. */
  lemma {:induction false} ScheduleRecords(
      list: seq<TimedEvent>, rows: seq<Row>, t0: int, end: int, phase: int, r: R.Recorder, a: R.Answers)
    requires Sorted(list) && Indexed(list, TableOf(rows)) && Spaced(rows)
    requires forall i, j :: 0 <= i < j < |rows| ==> rows[i].id != rows[j].id
    requires t0 <= end && Finish(rows, t0, phase) <= end
    requires !r.status.Recording? && AllWell(a)
    ensures var q := Seconds(Queue(list, None, []), t0, end, phase);
            var segments := RunAll(r, q.ran, a).segments;
            && q.list == [] && q.slot.None? && |q.ran| == 3 * |rows|
            && segments == r.segments + Recordings(rows, q.ran)
            && (segments == r.segments + Wanted(rows) <==> EarlyEnough(rows, t0, phase) && Ticked(rows, phase))
  {
    ListIsPlan(list, rows);
    PlanRuns(rows, t0, end, phase);
    var q := Seconds(Queue(Plan(rows), None, []), t0, end, phase);
    PlanRecords(r, rows, q.ran, a);
    RecordingsWantedIff(rows, q.ran, t0, phase);
    AllOnTimeIff(rows, t0, phase);
    SamePrefix(r.segments, Recordings(rows, q.ran), Wanted(rows));
  }

  /** In terms of the bookings alone: half a minute long, the first a minute
      ahead. Then all is recorded exactly by the end of the last one. */
  lemma {:induction false} ScheduleRecordsExactly(
      list: seq<TimedEvent>, rows: seq<Row>, t0: int, end: int, phase: int, r: R.Recorder, a: R.Answers)
    requires Sorted(list) && Indexed(list, TableOf(rows)) && Spaced(rows)
    requires forall i, j :: 0 <= i < j < |rows| ==> rows[i].id != rows[j].id
    requires forall i :: 0 <= i < |rows| ==> rows[i].booking.start + 30 <= rows[i].booking.end
    requires t0 <= end && (rows != [] ==> t0 + 60 <= rows[0].booking.start && rows[|rows| - 1].booking.end <= end)
    requires !r.status.Recording? && AllWell(a)
    ensures var q := Seconds(Queue(list, None, []), t0, end, phase);
            q.list == [] && q.slot.None? && RunAll(r, q.ran, a).segments == r.segments + Wanted(rows)
  {
    HalfMinuteIff(rows, t0);
    PlanShape(rows);
    if rows != [] {
      StartsAndStopsOnTime(rows, |rows| - 1, t0, phase);
    }
    ScheduleRecords(list, rows, t0, end, phase, r, a);
  }

  /** Shorter bookings can be started late: of two spaced bookings of one second
      each, more than a minute apart, the second is started late. */
  lemma {:induction false} ShortBookingsRunLate() returns (rows: seq<Row>, t0: int, phase: int)
    ensures Spaced(rows) && |rows| == 2 && |Plan(rows)| == 6 && t0 + 90 <= rows[0].booking.start
    ensures RunTime(Plan(rows), 4, t0, phase) > rows[1].booking.start
  {
    t0, phase := 0, 1;
    rows := [Row(1, Booking(1, 1000, 1001)), Row(2, Booking(2, 1062, 1063))];
    var p := Triple(1, rows[0].booking) + Triple(2, rows[1].booking);
    assert rows[..1] == [rows[0]] && rows[..1][..0] == [];
    assert Plan([rows[0]]) == Triple(1, rows[0].booking);
    assert Plan(rows) == p;
    assert RunTime(p, 0, t0, phase) == 940;
    assert RunTime(p, 1, t0, phase) == 1000;
    assert NextTick(1000, 1) == 1021;
    assert RunTime(p, 2, t0, phase) == 1021;
    assert RunTime(p, 3, t0, phase) == 1051;
    assert RunTime(p, 4, t0, phase) == 1081;
  }
}
