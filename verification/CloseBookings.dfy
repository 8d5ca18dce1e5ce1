/** Bookings that follow each other closely: the tune-in of the next one can fall
    into the recording of the one before. */
module CloseBookings {
  import opened Bytes
  import opened TimedEvents
  import opened Punctuality
  import opened Scheduled
  import opened RecordingPlan
  import R = RecorderState

  /** Bookings that do not overlap, each starting more than a minute after the one
      before, with no tune-in at the very second of a stop. */
  ghost predicate Apart(rows: seq<Row>) {
    && (forall i :: 0 <= i < |rows| ==> rows[i].booking.start < rows[i].booking.end)
    && (forall i :: 0 < i < |rows| ==> Follows(rows[i - 1].booking, rows[i].booking))
  }

  predicate Follows(a: Booking, b: Booking) {
    a.start < b.start - 60 && a.end < b.start && a.end != b.start - 60
  }

  /** The tune-in of b falls into a. */
  predicate TunesInto(a: Row, b: Row) { b.booking.start - 60 < a.booking.end }

  /** All events after the start of the first booking, in time order. */
  function Rest(rows: seq<Row>): (events: seq<TimedEvent>)
    requires rows != []
    ensures |events| == 3 * |rows| - 2
  {
    if |rows| == 1 then [Triple(rows[0].id, rows[0].booking)[2]] else Between(rows[0], rows[1]) + Rest(rows[1..])
  }

  /** The events from the start of a up to the start of b. */
  function Between(a: Row, b: Row): (events: seq<TimedEvent>)
    ensures |events| == 3
  {
    var stop, next := Triple(a.id, a.booking)[2], Triple(b.id, b.booking);
    if TunesInto(a, b) then [next[0], stop, next[1]] else [stop, next[0], next[1]]
  }

  function ClosePlan(rows: seq<Row>): (events: seq<TimedEvent>)
    ensures |events| == 3 * |rows|
  {
    if rows == [] then [] else Triple(rows[0].id, rows[0].booking)[..2] + Rest(rows)
  }

  // ------------------------------------------------------------------
  // The list is the plan
  // ------------------------------------------------------------------

  lemma {:induction false} BetweenMembers(a: Row, b: Row)
    ensures multiset(Between(a, b)) == multiset([Triple(a.id, a.booking)[2]]) + multiset(Triple(b.id, b.booking)[..2])
  {
    var next := Triple(b.id, b.booking);
    assert next[..2] == [next[0], next[1]];
  }

  lemma {:induction false} HeadMembers(id: nat, b: Booking)
    ensures multiset(Triple(id, b)[..2]) + multiset([Triple(id, b)[2]]) == multiset(Triple(id, b))
  {
    assert Triple(id, b)[..2] + [Triple(id, b)[2]] == Triple(id, b);
  }

  lemma {:induction false} Regroup<T>(head: multiset<T>, stop: multiset<T>, next: multiset<T>, rest: multiset<T>,
      plan: multiset<T>,
      first: multiset<T>)
    requires next + rest == plan && head + stop == first
    ensures head + (stop + next + rest) == first + plan
  {
    assert head + (stop + next + rest) == (head + stop) + (next + rest);
  }

  lemma {:induction false} RestMembers(rows: seq<Row>)
    requires rows != []
    ensures multiset(Triple(rows[0].id, rows[0].booking)[..2]) + multiset(Rest(rows)) == multiset(Plan(rows))
  {
    PlanFirst(rows);
    HeadMembers(rows[0].id, rows[0].booking);
    var first := Triple(rows[0].id, rows[0].booking);
    if |rows| == 1 {
      assert rows[1..] == [] && Plan(rows[1..]) == [];
      assert Plan(rows) == first;
      assert Rest(rows) == [first[2]];
    } else {
      RestMembers(rows[1..]);
      BetweenMembers(rows[0], rows[1]);
      var next := Triple(rows[1].id, rows[1].booking);
      Regroup(multiset(first[..2]), multiset([first[2]]), multiset(next[..2]), multiset(Rest(rows[1..])),
          multiset(Plan(rows[1..])), multiset(first));
      assert Rest(rows) == Between(rows[0], rows[1]) + Rest(rows[1..]);
    }
  }

  lemma {:induction false} PlansAgree(rows: seq<Row>)
    ensures multiset(ClosePlan(rows)) == multiset(Plan(rows))
  {
    if rows != [] {
      RestMembers(rows);
    }
  }

  ghost predicate AllAfter(list: seq<TimedEvent>, t: int) {
    forall i :: 0 <= i < |list| ==> t < list[i].time
  }

  lemma {:induction false} IncreasingBlock(block: seq<TimedEvent>, more: seq<TimedEvent>, t: int)
    requires |block| == 3 && t < block[0].time < block[1].time < block[2].time
    requires Increasing(more) && AllAfter(more, block[2].time)
    ensures Increasing(block + more) && AllAfter(block + more, t)
  {
    IncreasingAppend(block, more, block[2].time);
  }

  lemma {:induction false} RestIncreasing(rows: seq<Row>)
    requires Apart(rows) && rows != []
    ensures Increasing(Rest(rows)) && AllAfter(Rest(rows), rows[0].booking.start)
  {
    if |rows| > 1 {
      assert Apart(rows[1..]) by {
        assert forall i :: 0 < i < |rows[1..]| ==> Follows(rows[i].booking, rows[i + 1].booking);
      }
      RestIncreasing(rows[1..]);
      assert Follows(rows[0].booking, rows[1].booking);
      IncreasingBlock(Between(rows[0], rows[1]), Rest(rows[1..]), rows[0].booking.start);
    }
  }

  lemma {:induction false} ClosePlanIncreasing(rows: seq<Row>)
    requires Apart(rows)
    ensures Increasing(ClosePlan(rows))
  {
    if rows != [] {
      RestIncreasing(rows);
      IncreasingAppend(Triple(rows[0].id, rows[0].booking)[..2], Rest(rows), rows[0].booking.start);
    }
  }

  /** In whatever order the bookings were set. */
  lemma {:induction false} ListIsClosePlan(list: seq<TimedEvent>, rows: seq<Row>)
    requires Sorted(list) && Indexed(list, TableOf(rows)) && Apart(rows)
    requires forall i, j :: 0 <= i < j < |rows| ==> rows[i].id != rows[j].id
    ensures list == ClosePlan(rows)
  {
    PlanIndexed(rows);
    PlansAgree(rows);
    ClosePlanIncreasing(rows);
    IndexIsUnique(list, Plan(rows), TableOf(rows));
    SortedIsUnique(list, ClosePlan(rows));
  }

  // ------------------------------------------------------------------
  // What is recorded
  // ------------------------------------------------------------------

  /** A recording is ended by the next tune-in when that falls into it and goes to
      another channel. */
  predicate CutShort(a: Row, b: Row) { TunesInto(a, b) && a.booking.channel != b.booking.channel }

  /** The recordings, from the run of the first start on. */
  function CloseRecordings(rows: seq<Row>, start: int, ran: seq<Ran>): (segments: seq<R.Segment>)
    requires rows != [] && |ran| == 3 * |rows| - 2
    ensures |segments| == |rows|
    decreases |rows|
  {
    var c := rows[0].booking.channel;
    if |rows| == 1 then [R.Segment(c, start, ran[0].at)]
    else
      var end := if TunesInto(rows[0], rows[1]) && !CutShort(rows[0], rows[1]) then ran[1].at else ran[0].at;
      [R.Segment(c, start, end)] + CloseRecordings(rows[1..], ran[2].at, ran[3..])
  }

  lemma {:induction false} RunBlock(r: R.Recorder, ran: seq<Ran>, a: Row, b: Row, answers: R.Answers)
    requires r.status.Recording? && r.channel == a.booking.channel && AllWell(answers) && |ran| == 3
    requires Logs(ran, Between(a, b))
    ensures var r' := RunEvent(RunEvent(RunEvent(r, ran[0], answers), ran[1], answers), ran[2], answers);
            && r'.status.Recording? && r'.channel == b.booking.channel && r'.start == ran[2].at
            && r'.segments == r.segments +
               [R.Segment(r.channel, r.start, if TunesInto(a, b) && !CutShort(a, b) then ran[1].at else ran[0].at)]
  {
    assert ran[0].event.kind == if TunesInto(a, b) then TuneIn(b.booking.channel) else RecordStop;
    assert ran[1].event.kind == if TunesInto(a, b) then RecordStop else TuneIn(b.booking.channel);
    assert ran[2].event.kind == EventKind.RecordStart;
  }

  lemma {:induction false} FirstRecorded(r: R.Recorder, rows: seq<Row>, ran: seq<Ran>, a: R.Answers)
    requires |rows| > 1 && r.status.Recording? && r.channel == rows[0].booking.channel && AllWell(a)
    requires |ran| == 3 * |rows| - 2 && Logs(ran[..3], Between(rows[0], rows[1]))
    ensures var r' := RunAll(r, ran[..3], a);
            && r'.status.Recording? && r'.channel == rows[1].booking.channel
            && forall more: seq<R.Segment> :: more == CloseRecordings(rows[1..], r'.start, ran[3..]) ==>
                 r'.segments + more == r.segments + CloseRecordings(rows, r.start, ran)
  {
    RunThree(r, ran[..3], a);
    RunBlock(r, ran[..3], rows[0], rows[1], a);
  }

  lemma {:induction false} RestRecords(r: R.Recorder, rows: seq<Row>, ran: seq<Ran>, a: R.Answers)
    requires rows != [] && r.status.Recording? && r.channel == rows[0].booking.channel && AllWell(a)
    requires |ran| == 3 * |rows| - 2 && Logs(ran, Rest(rows))
    ensures var r' := RunAll(r, ran, a);
            !r'.status.Recording? && r'.segments == r.segments + CloseRecordings(rows, r.start, ran)
    decreases |rows|
  {
    if |rows| == 1 {
      assert ran == [ran[0]] && ran[0].event == Rest(rows)[0];
      RunOne(r, ran[0], a);
    } else {
      var head, more := ran[..3], ran[3..];
      assert ran == head + more;
      RestLogs(rows, ran);
      RunAppend(r, head, more, a);
      FirstRecorded(r, rows, ran, a);
      RestRecords(RunAll(r, head, a), rows[1..], more, a);
    }
  }

  lemma {:induction false} RestLogs(rows: seq<Row>, ran: seq<Ran>)
    requires |rows| > 1 && |ran| == 3 * |rows| - 2 && Logs(ran, Rest(rows))
    ensures Logs(ran[..3], Between(rows[0], rows[1]))
    ensures Logs(ran[3..], Rest(rows[1..]))
  {
    forall k | 0 <= k < |ran[3..]| ensures ran[3..][k].event == Rest(rows[1..])[k] {
      assert Rest(rows)[k + 3] == Rest(rows[1..])[k];
    }
    assert forall k :: 0 <= k < 3 ==> ran[..3][k].event == Rest(rows)[k];
  }

  /** Running the plan of close bookings records exactly one segment per booking,
      on its channel, in order. */
  lemma {:induction false} ClosePlanRecords(r: R.Recorder, rows: seq<Row>, ran: seq<Ran>, a: R.Answers)
    requires rows != [] && !r.status.Recording? && AllWell(a) && |ran| == 3 * |rows| && Logs(ran, ClosePlan(rows))
    ensures var r' := RunAll(r, ran, a);
            !r'.status.Recording? && r'.segments == r.segments + CloseRecordings(rows, ran[1].at, ran[2..])
  {
    var x, y, more := ran[0], ran[1], ran[2..];
    assert ran == [x] + ([y] + more);
    RunAppend(r, [x], [y] + more, a);
    RunAppend(RunEvent(r, x, a), [y], more, a);
    RunOne(r, x, a);
    RunOne(RunEvent(r, x, a), y, a);
    var t := Triple(rows[0].id, rows[0].booking);
    assert x.event == ClosePlan(rows)[0] == t[0] && y.event == ClosePlan(rows)[1] == t[1];
    forall k | 0 <= k < |more| ensures more[k].event == Rest(rows)[k] {
      assert ClosePlan(rows)[k + 2] == Rest(rows)[k];
    }
    RestRecords(RunEvent(RunEvent(r, x, a), y, a), rows, more, a);
  }

  // ------------------------------------------------------------------
  // Exactly which recordings are complete
  // ------------------------------------------------------------------

  /** When the stop of booking i runs. */
  ghost predicate StopRunsAt(rows: seq<Row>, i: nat, ran: seq<Ran>, at: int)
    requires i < |rows|
  {
    exists k :: 0 <= k < |ran| && ran[k].event == Triple(rows[i].id, rows[i].booking)[2] && ran[k].at == at
  }

  ghost predicate Later(ran: seq<Ran>) {
    forall j, k :: 0 <= j < k < |ran| ==> ran[j].at < ran[k].at
  }

  /** Booking i is recorded up to the run of its own stop. */
  ghost predicate RecordedWhole(rows: seq<Row>, i: nat, start: int, ran: seq<Ran>)
    requires i < |rows| && |ran| == 3 * |rows| - 2
  {
    StopRunsAt(rows, i, ran, CloseRecordings(rows, start, ran)[i].to)
  }

  lemma {:induction false} FirstWholeIff(rows: seq<Row>, start: int, ran: seq<Ran>)
    requires |rows| > 1 && |ran| == 3 * |rows| - 2 && Logs(ran, Rest(rows)) && Later(ran)
    ensures RecordedWhole(rows, 0, start, ran) <==> !CutShort(rows[0], rows[1])
  {
    var stop := Triple(rows[0].id, rows[0].booking)[2];
    var to := CloseRecordings(rows, start, ran)[0].to;
    var s := if TunesInto(rows[0], rows[1]) then 1 else 0;
    assert ran[s].event == Rest(rows)[s] == stop;
    if CutShort(rows[0], rows[1]) {
      assert to == ran[0].at && ran[0].event == Rest(rows)[0] && ran[0].event != stop;
      assert !StopRunsAt(rows, 0, ran, to);
    } else {
      assert to == ran[s].at;
    }
  }

  lemma {:induction false} StopRunsLater(rows: seq<Row>, i: nat, ran: seq<Ran>, at: int)
    requires 0 < i < |rows| && |rows| > 1 && |ran| == 3 * |rows| - 2 && Logs(ran, Rest(rows)) && Later(ran)
    requires at > ran[2].at
    ensures StopRunsAt(rows, i, ran, at) <==> StopRunsAt(rows[1..], i - 1, ran[3..], at)
  {
    if StopRunsAt(rows, i, ran, at) {
      var k :| 0 <= k < |ran| && ran[k].event == Triple(rows[i].id, rows[i].booking)[2] && ran[k].at == at;
      assert k >= 3;
      assert ran[3..][k - 3] == ran[k];
    }
    if StopRunsAt(rows[1..], i - 1, ran[3..], at) {
      var k :| 0 <= k < |ran[3..]| && ran[3..][k].event == Triple(rows[i].id, rows[i].booking)[2]
          && ran[3..][k].at == at;
      assert ran[k + 3] == ran[3..][k];
    }
  }

  lemma {:induction false} EndsInside(rows: seq<Row>, i: nat, start: int, ran: seq<Ran>)
    requires i < |rows| && |ran| == 3 * |rows| - 2
    ensures exists k :: 0 <= k < |ran| && CloseRecordings(rows, start, ran)[i].to == ran[k].at
    decreases |rows|
  {
    if |rows| > 1 && i > 0 {
      EndsInside(rows[1..], i - 1, ran[2].at, ran[3..]);
      var k :| 0 <= k < |ran[3..]| && CloseRecordings(rows[1..], ran[2].at, ran[3..])[i - 1].to == ran[3..][k].at;
      assert ran[3..][k] == ran[k + 3];
    } else if |rows| > 1 && TunesInto(rows[0], rows[1]) && !CutShort(rows[0], rows[1]) {
      assert CloseRecordings(rows, start, ran)[i].to == ran[1].at;
    } else {
      assert CloseRecordings(rows, start, ran)[i].to == ran[0].at;
    }
  }

  /** A booking is recorded up to the run of its own stop exactly when the next one
      does not tune into it, or is on the same channel. */
  lemma {:induction false} RecordedWholeIff(rows: seq<Row>, i: nat, start: int, ran: seq<Ran>)
    requires i < |rows| && |ran| == 3 * |rows| - 2 && Logs(ran, Rest(rows)) && Later(ran)
    ensures RecordedWhole(rows, i, start, ran) <==> (i + 1 < |rows| ==> !CutShort(rows[i], rows[i + 1]))
    decreases |rows|
  {
    if |rows| == 1 {
      assert ran[0].event == Rest(rows)[0];
    } else if i == 0 {
      FirstWholeIff(rows, start, ran);
    } else {
      RestLogs(rows, ran);
      assert Later(ran[3..]);
      RecordedWholeIff(rows[1..], i - 1, ran[2].at, ran[3..]);
      EndsInside(rows[1..], i - 1, ran[2].at, ran[3..]);
      StopRunsLater(rows, i, ran, CloseRecordings(rows, start, ran)[i].to);
    }
  }

  // ------------------------------------------------------------------
  // The whole chain
  // ------------------------------------------------------------------

  lemma {:induction false} RunTimesLater(events: seq<TimedEvent>, j: nat, k: nat, t0: int, phase: int)
    requires j < k < |events|
    ensures RunTime(events, j, t0, phase) < RunTime(events, k, t0, phase)
  {
    RunTimesIncrease(events, j, k - 1, t0, phase);
    TicksMean(RunTime(events, k - 1, t0, phase), phase);
  }

  lemma {:induction false} ClosePlanRuns(list: seq<TimedEvent>, t0: int, end: int, phase: int)
    requires list != [] && t0 <= end && RunTime(list, |list| - 1, t0, phase) <= end
    ensures var ran := Seconds(Queue(list, None, []), t0, end, phase).ran; Logs(ran, list) && Later(ran)
  {
    RunsOnSchedule(list, t0, end, phase);
    RunByThen(list, t0, end, phase, |list| - 1);
    var ran := Seconds(Queue(list, None, []), t0, end, phase).ran;
    forall j, k | 0 <= j < k < |ran| ensures ran[j].at < ran[k].at {
      RunTimesLater(list, j, k, t0, phase);
    }
  }

  lemma {:induction false} RestOfLog(rows: seq<Row>, ran: seq<Ran>)
    requires rows != [] && Logs(ran, ClosePlan(rows)) && Later(ran)
    ensures Logs(ran[2..], Rest(rows)) && Later(ran[2..])
  {
    forall k | 0 <= k < |ran[2..]| ensures ran[2..][k].event == Rest(rows)[k] {
      assert ClosePlan(rows)[k + 2] == Rest(rows)[k];
    }
  }

  /** Bookings set in any order, the queue run second by second until it is empty:
      exactly one recording per booking, on its channel and in order, each from the
      run of its start; and complete exactly when the next booking does not tune
      into it from another channel. */
  lemma {:induction false} CloseBookingsRecorded(
      list: seq<TimedEvent>, rows: seq<Row>, t0: int, end: int, phase: int, r: R.Recorder, a: R.Answers)
    requires Sorted(list) && Indexed(list, TableOf(rows)) && Apart(rows) && rows != []
    requires forall i, j :: 0 <= i < j < |rows| ==> rows[i].id != rows[j].id
    requires t0 <= end && |list| == 3 * |rows| && RunTime(list, |list| - 1, t0, phase) <= end
    requires !r.status.Recording? && AllWell(a)
    ensures var ran := Seconds(Queue(list, None, []), t0, end, phase).ran;
            && |ran| == 3 * |rows|
            && RunAll(r, ran, a).segments == r.segments + CloseRecordings(rows, ran[1].at, ran[2..])
            && forall i :: 0 <= i < |rows| ==>
                 (RecordedWhole(rows, i, ran[1].at, ran[2..]) <==> (i + 1 < |rows| ==> !CutShort(rows[i], rows[i + 1])))
  {
    ListIsClosePlan(list, rows);
    ClosePlanRuns(list, t0, end, phase);
    var ran := Seconds(Queue(list, None, []), t0, end, phase).ran;
    ClosePlanRecords(r, rows, ran, a);
    RestOfLog(rows, ran);
    forall i | 0 <= i < |rows|
      ensures RecordedWhole(rows, i, ran[1].at, ran[2..]) <==> (i + 1 < |rows| ==> !CutShort(rows[i], rows[i + 1]))
    {
      RecordedWholeIff(rows, i, ran[1].at, ran[2..]);
    }
  }
}
