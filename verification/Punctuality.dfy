/** When the single-slot queue runs its events: a tick every 30 seconds moves the
    head into the slot, and the idle function looks at the slot every second. */
module Punctuality {
  import opened Bytes
  import opened TimedEvents

  /** Ticks are the seconds congruent to phase. */
  predicate IsTick(t: int, phase: int) { (t - phase) % 30 == 0 }

  /** The first tick after r. */
  function NextTick(r: int, phase: int): int {
    r + 1 + (phase - (r + 1)) % 30
  }

  /** The latest tick up to now. */
  function LastTick(now: int, phase: int): int {
    now - (now - phase) % 30
  }

  lemma {:induction false} TicksMean(r: int, phase: int)
    ensures var n, l := NextTick(r, phase), LastTick(r, phase);
            && l <= r < n && n == l + 30 && IsTick(n, phase) && IsTick(l, phase)
            && forall u :: l < u < n ==> !IsTick(u, phase)
  {
  }

  function Second(q: Queue, now: int, phase: int): Queue {
    RunDue(if IsTick(now, phase) then Tick(q, now) else q, now)
  }

  /** The seconds now + 1 .. end. */
  function Seconds(q: Queue, now: int, end: int, phase: int): Queue
    requires now <= end
    decreases end - now
  {
    if now == end then q else Seconds(Second(q, now + 1, phase), now + 1, end, phase)
  }

  function Max(a: int, b: int): int { if a < b then b else a }

  /** The time event k runs: its own time or the first tick after event k - 1 ran
      (after t0 for the first), whichever is later. */
  function RunTime(events: seq<TimedEvent>, k: int, t0: int, phase: int): int
    requires -1 <= k < |events|
    decreases k + 1
  {
    if k < 0 then t0 else Max(events[k].time, NextTick(RunTime(events, k - 1, t0, phase), phase))
  }

  /** In flight, then waiting. */
  function Pending(q: Queue): seq<TimedEvent> {
    if q.slot.Some? then [q.slot.value] + q.list else q.list
  }

  /** Run, in flight, waiting: together always all events, in order. */
  ghost predicate Placed(q: Queue, events: seq<TimedEvent>) {
    && |q.ran| <= |events|
    && (forall k :: 0 <= k < |q.ran| ==> q.ran[k].event == events[k])
    && Pending(q) == events[|q.ran|..]
  }

  /** After second `now`, with `last` the time of the last run: an event in the
      slot was picked up by a tick after that and lies ahead; a waiting head was
      beyond the reach of every tick since. */
  ghost predicate Timely(last: int, slot: Option<TimedEvent>, list: seq<TimedEvent>, now: int, phase: int) {
    && last <= now
    && (slot.Some? ==> NextTick(last, phase) <= now < slot.value.time)
    && (slot.None? && list != [] && NextTick(last, phase) <= now ==> list[0].time > LastTick(now, phase) + 30)
  }

  ghost predicate OnSchedule(q: Queue, events: seq<TimedEvent>, t0: int, now: int, phase: int) {
    && Placed(q, events)
    && (forall k :: 0 <= k < |q.ran| ==> q.ran[k].at == RunTime(events, k, t0, phase))
    && Timely(RunTime(events, |q.ran| - 1, t0, phase), q.slot, q.list, now, phase)
  }

  lemma {:induction false} TickAdvances(last: int, now: int, phase: int)
    requires last <= now
    ensures NextTick(last, phase) <= now + 1 <==> NextTick(last, phase) <= now || IsTick(now + 1, phase)
    ensures LastTick(now + 1, phase) == if IsTick(now + 1, phase) then now + 1 else LastTick(now, phase)
    ensures IsTick(now + 1, phase) ==> LastTick(now, phase) + 30 == now + 1
    ensures IsTick(now + 1, phase) && now < NextTick(last, phase) ==> NextTick(last, phase) == now + 1
  {
    var d := (now - phase) % 30;
    assert (now + 1 - phase) % 30 == if d == 29 then 0 else d + 1;
  }

  lemma {:induction false} SecondTimely(last: int, q: Queue, now: int, phase: int)
    requires Timely(last, q.slot, q.list, now, phase)
    ensures var r := Second(q, now + 1, phase);
            if r.ran == q.ran then Timely(last, r.slot, r.list, now + 1, phase)
            else
              && |r.ran| == |q.ran| + 1 && r.ran[..|q.ran|] == q.ran
              && r.ran[|q.ran|].at == now + 1 == Max(r.ran[|q.ran|].event.time, NextTick(last, phase))
              && Timely(now + 1, r.slot, r.list, now + 1, phase)
  {
    TickAdvances(last, now, phase);
    TicksMean(last, phase);
  }

  lemma {:induction false} SecondPlaced(q: Queue, events: seq<TimedEvent>, now: int, phase: int)
    requires Placed(q, events)
    ensures Placed(Second(q, now, phase), events)
  {
    var p := if IsTick(now, phase) then Tick(q, now) else q;
    assert Pending(p) == Pending(q);
    if Due(p, now) {
      assert Pending(p)[0] == events[|p.ran|];
      assert p.list == Pending(p)[1..];
    }
  }

  lemma {:induction false} RunTimeOf(events: seq<TimedEvent>, k: nat, t0: int, phase: int)
    requires k < |events|
    ensures RunTime(events, k, t0, phase) == Max(events[k].time, NextTick(RunTime(events, k - 1, t0, phase), phase))
  {
  }

  lemma {:induction false} SecondOnSchedule(q: Queue, events: seq<TimedEvent>, t0: int, now: int, phase: int)
    requires OnSchedule(q, events, t0, now, phase)
    ensures OnSchedule(Second(q, now + 1, phase), events, t0, now + 1, phase)
  {
    var r := Second(q, now + 1, phase);
    SecondPlaced(q, events, now + 1, phase);
    SecondTimely(RunTime(events, |q.ran| - 1, t0, phase), q, now, phase);
    if r.ran != q.ran {
      RunTimeOf(events, |q.ran|, t0, phase);
      forall k | 0 <= k < |r.ran| ensures r.ran[k].at == RunTime(events, k, t0, phase) {
        assert k < |q.ran| ==> r.ran[k] == r.ran[..|q.ran|][k];
      }
    }
  }

  lemma {:induction false} StartOnSchedule(events: seq<TimedEvent>, t0: int, phase: int)
    ensures OnSchedule(Queue(events, None, []), events, t0, t0, phase)
  {
  }

  lemma {:induction false} StaysOnSchedule(q: Queue, events: seq<TimedEvent>, t0: int, now: int, end: int, phase: int)
    requires now <= end && OnSchedule(q, events, t0, now, phase)
    ensures OnSchedule(Seconds(q, now, end, phase), events, t0, end, phase)
    decreases end - now
  {
    if now < end {
      SecondOnSchedule(q, events, t0, now, phase);
      StaysOnSchedule(Second(q, now + 1, phase), events, t0, now + 1, end, phase);
    }
  }

  /** For any queue and any phase of the ticks, after any number of seconds:
      every event that has run did so, in list order, exactly at its run time. */
  lemma {:induction false} RunsOnSchedule(events: seq<TimedEvent>, t0: int, end: int, phase: int)
    requires t0 <= end
    ensures OnSchedule(Seconds(Queue(events, None, []), t0, end, phase), events, t0, end, phase)
  {
    StartOnSchedule(events, t0, phase);
    StaysOnSchedule(Queue(events, None, []), events, t0, t0, end, phase);
  }

  /** An event has run as soon as its run time has come. */
  lemma {:induction false} RunByThen(events: seq<TimedEvent>, t0: int, end: int, phase: int, k: nat)
    requires t0 <= end && k < |events| && RunTime(events, k, t0, phase) <= end
    ensures |Seconds(Queue(events, None, []), t0, end, phase).ran| > k
  {
    var q := Seconds(Queue(events, None, []), t0, end, phase);
    RunsOnSchedule(events, t0, end, phase);
    if |q.ran| <= k {
      NextNotYet(q, events, t0, end, phase);
      RunTimesIncrease(events, |q.ran|, k, t0, phase);
    }
  }

  /** The run time of the first event that has not run lies ahead. */
  lemma {:induction false} NextNotYet(q: Queue, events: seq<TimedEvent>, t0: int, now: int, phase: int)
    requires OnSchedule(q, events, t0, now, phase) && |q.ran| < |events|
    ensures RunTime(events, |q.ran|, t0, phase) > now
  {
    assert Pending(q)[0] == events[|q.ran|];
    TicksMean(RunTime(events, |q.ran| - 1, t0, phase), phase);
    TicksMean(now, phase);
  }

  lemma {:induction false} RunTimesIncrease(events: seq<TimedEvent>, i: nat, k: nat, t0: int, phase: int)
    requires i <= k < |events|
    ensures RunTime(events, i, t0, phase) <= RunTime(events, k, t0, phase)
    decreases k
  {
    if i < k {
      RunTimesIncrease(events, i, k - 1, t0, phase);
    }
  }

  /** Never early, and at most 30 seconds behind the event before. */
  lemma {:induction false} Punctual(events: seq<TimedEvent>, k: nat, t0: int, phase: int)
    requires k < |events|
    ensures var r, before := RunTime(events, k, t0, phase), RunTime(events, k - 1, t0, phase);
            && events[k].time <= r <= Max(events[k].time, before + 30)
            && (r == events[k].time <==> NextTick(before, phase) <= events[k].time)
  {
  }

  /** With times at least 30 seconds apart every event runs exactly on time. */
  lemma {:induction false} OnTimeWhenApart(events: seq<TimedEvent>, k: nat, t0: int, phase: int)
    requires k < |events| && t0 + 30 <= events[0].time
    requires forall i :: 0 < i < |events| ==> events[i - 1].time + 30 <= events[i].time
    ensures RunTime(events, k, t0, phase) == events[k].time
  {
    if k > 0 {
      OnTimeWhenApart(events, k - 1, t0, phase);
    }
  }

  // ------------------------------------------------------------------
  // From any queue on
  // ------------------------------------------------------------------

  /** What has run before does not matter. */
  lemma {:induction false} RanShifts(q: Queue, before: seq<Ran>, now: int, end: int, phase: int)
    requires now <= end
    ensures Seconds(q.(ran := before + q.ran), now, end, phase)
            == Seconds(q, now, end, phase).(ran := before + Seconds(q, now, end, phase).ran)
    decreases end - now
  {
    if now < end {
      var r := Second(q, now + 1, phase);
      assert Second(q.(ran := before + q.ran), now + 1, phase) == r.(ran := before + r.ran);
      RanShifts(r, before, now + 1, end, phase);
    }
  }

  lemma {:induction false} SecondsSplit(q: Queue, now: int, mid: int, end: int, phase: int)
    requires now <= mid <= end
    ensures Seconds(q, now, end, phase) == Seconds(Seconds(q, now, mid, phase), mid, end, phase)
    decreases mid - now
  {
    if now < mid {
      SecondsSplit(Second(q, now + 1, phase), now + 1, mid, end, phase);
    }
  }

  /** An event in flight runs at its time, or in the next second when that is past. */
  function SlotTime(e: TimedEvent, now: int): int { Max(e.time, now + 1) }

  lemma {:induction false} SlotRuns(q: Queue, e: TimedEvent, now: int, end: int, phase: int)
    requires q.slot == Some(e) && now <= end <= SlotTime(e, now)
    ensures Seconds(q, now, end, phase) ==
            if end < SlotTime(e, now) then q else Queue(q.list, None, q.ran + [Ran(e, end)])
    decreases end - now
  {
    if now < end {
      var r := Second(q, now + 1, phase);
      if now + 1 < SlotTime(e, now) {
        assert r == q;
        SlotRuns(q, e, now + 1, end, phase);
      } else {
        assert r == Queue(q.list, None, q.ran + [Ran(e, now + 1)]);
      }
    }
  }

  /** The waiting events with their run times. */
  function ListLog(list: seq<TimedEvent>, t0: int, phase: int): (log: seq<Ran>)
    ensures |log| == |list|
  {
    seq(|list|, k requires 0 <= k < |list| => Ran(list[k], RunTime(list, k, t0, phase)))
  }

  /** All pending events with their run times: first the one in flight, and the
      list from then on. */
  function Log(q: Queue, t0: int, phase: int): seq<Ran> {
    if q.slot.Some? then
      var x := SlotTime(q.slot.value, t0);
      [Ran(q.slot.value, x)] + ListLog(q.list, x, phase)
    else ListLog(q.list, t0, phase)
  }

  /** After r started from q, the log has run up to the present. */
  ghost predicate FollowsLog(q: Queue, r: Queue, log: seq<Ran>, now: int) {
    var n := |r.ran| - |q.ran|;
    && 0 <= n <= |log| == |Pending(q)| && r.ran == q.ran + log[..n] && Pending(r) == Pending(q)[n..]
    && (forall k :: 0 <= k < n ==> log[k].at <= now)
    && (n < |log| ==> log[n].at > now)
  }

  lemma {:induction false} RanByNow(list: seq<TimedEvent>, t0: int, end: int, phase: int)
    requires t0 <= end
    ensures FollowsLog(Queue(list, None, []), Seconds(Queue(list, None, []), t0, end, phase),
            ListLog(list, t0, phase), end)
  {
    var r, log := Seconds(Queue(list, None, []), t0, end, phase), ListLog(list, t0, phase);
    RunsOnSchedule(list, t0, end, phase);
    forall k | 0 <= k < |r.ran| ensures r.ran[k] == log[k] && log[k].at <= end {
      RunTimesIncrease(list, k, |r.ran| - 1, t0, phase);
    }
    if |r.ran| < |list| {
      NextNotYet(r, list, t0, end, phase);
    }
  }

  lemma {:induction false} FollowsBehind(q: Queue, first: seq<Ran>, p: Queue, r: Queue, log: seq<Ran>, now: int)
    requires FollowsLog(Queue(p.list, None, []), r, log, now) && |first| <= 1
    requires Pending(q) == seq(|first|, k requires 0 <= k < |first| => first[k].event) + p.list
    requires forall k :: 0 <= k < |first| ==> first[k].at <= now
    ensures FollowsLog(q, r.(ran := q.ran + first + r.ran), first + log, now)
  {
    var n := |r.ran|;
    assert (first + log)[..|first| + n] == first + log[..n];
    assert q.ran + first + r.ran == q.ran + (first + r.ran);
    assert Pending(q)[|first| + n..] == p.list[n..];
  }

  /** From any queue, with or without an event in flight, for any number of
      seconds: the pending events run in order, each exactly at its run time, and
      an event has run exactly when its run time has come. */
  lemma {:induction false} RunsFrom(q: Queue, t0: int, end: int, phase: int)
    requires t0 <= end
    ensures FollowsLog(q, Seconds(q, t0, end, phase), Log(q, t0, phase), end)
  {
    if q.slot.None? {
      RanByNow(q.list, t0, end, phase);
      RanShifts(Queue(q.list, None, []), q.ran, t0, end, phase);
      assert q == Queue(q.list, None, q.ran + []);
      var r := Seconds(Queue(q.list, None, []), t0, end, phase);
      assert q.ran + [] + r.ran == q.ran + r.ran && [] + Log(q, t0, phase) == Log(q, t0, phase);
      FollowsBehind(q, [], q, r, Log(q, t0, phase), end);
    } else {
      SlotThenList(q, t0, end, phase);
    }
  }

  lemma {:induction false} SlotThenList(q: Queue, t0: int, end: int, phase: int)
    requires t0 <= end && q.slot.Some?
    ensures FollowsLog(q, Seconds(q, t0, end, phase), Log(q, t0, phase), end)
  {
    var e := q.slot.value;
    var x := SlotTime(e, t0);
    if end < x {
      SlotRuns(q, e, t0, end, phase);
    } else {
      SlotRuns(q, e, t0, x, phase);
      SecondsSplit(q, t0, x, end, phase);
      RanByNow(q.list, x, end, phase);
      var first := [Ran(e, x)];
      RanShifts(Queue(q.list, None, []), q.ran + first, x, end, phase);
      assert Queue(q.list, None, q.ran + first) == Queue(q.list, None, q.ran + first + []);
      FollowsBehind(q, first, q, Seconds(Queue(q.list, None, []), x, end, phase), ListLog(q.list, x, phase), end);
    }
  }

  /** The queue commits itself late: an event is in flight at most 30 seconds ahead of
      its time, so that up to then it can still be withdrawn. */
  lemma {:induction false} InFlightSoon(q: Queue, t0: int, end: int, phase: int)
    requires t0 <= end && (q.slot.Some? ==> q.slot.value.time <= t0 + 30)
    ensures var r := Seconds(q, t0, end, phase); r.slot.Some? ==> r.slot.value.time <= end + 30
    decreases end - t0
  {
    if t0 < end {
      InFlightSoon(Second(q, t0 + 1, phase), t0 + 1, end, phase);
    }
  }
}
