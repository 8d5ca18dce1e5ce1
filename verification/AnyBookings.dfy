/** Any bookings at all, overlapping or not: what a log of events records. */
module AnyBookings {
  import opened Bytes
  import opened TimedEvents
  import opened Punctuality
  import opened Scheduled
  import opened RecordingPlan
  import opened CloseBookings
  import R = RecorderState

  // ------------------------------------------------------------------
  // Reading a log
  // ------------------------------------------------------------------

  /** The channel before event k: the last one tuned to. */
  function ChannelAt(c: nat, ran: seq<Ran>, k: nat): nat
    requires k <= |ran|
  {
    if k == 0 then c
    else if ran[k - 1].event.kind.TuneIn? then ran[k - 1].event.kind.channel
    else ChannelAt(c, ran, k - 1)
  }

  /** Event k ends a recording if there is one: a stop, or a tune-in elsewhere. */
  predicate Ends(c: nat, ran: seq<Ran>, k: nat)
    requires k < |ran|
  {
    var kind := ran[k].event.kind;
    kind.RecordStop? || (kind.TuneIn? && kind.channel != ChannelAt(c, ran, k))
  }

  predicate Starts(ran: seq<Ran>, j: nat)
    requires j < |ran|
  {
    ran[j].event.kind.RecordStart?
  }

  /** Event j is a start, and nothing from there up to event k ends a recording. */
  ghost predicate Lasts(c: nat, ran: seq<Ran>, j: nat, k: nat)
    requires k <= |ran|
  {
    j < k && Starts(ran, j) && forall i: nat :: j < i < k ==> !Ends(c, ran, i)
  }

  /** A recording runs before event k. */
  ghost predicate RecordingAt(c: nat, ran: seq<Ran>, k: nat)
    requires k <= |ran|
  {
    exists j: nat :: Lasts(c, ran, j, k)
  }

  /** It runs from event j: the first start since the last end. */
  ghost predicate RunsSince(c: nat, ran: seq<Ran>, j: nat, k: nat)
    requires k <= |ran|
  {
    Lasts(c, ran, j, k) && !RecordingAt(c, ran, j)
  }

  lemma {:induction false} OneStart(c: nat, ran: seq<Ran>, i: nat, j: nat, k: nat)
    requires k <= |ran| && RunsSince(c, ran, i, k) && RunsSince(c, ran, j, k)
    ensures i == j
  {
    assert i < j ==> Lasts(c, ran, i, j);
    assert j < i ==> Lasts(c, ran, j, i);
  }

  /** One event further. */
  lemma {:induction false} RecordingNext(c: nat, ran: seq<Ran>, k: nat)
    requires k < |ran|
    ensures RecordingAt(c, ran, k + 1) <==> Starts(ran, k) || (RecordingAt(c, ran, k) && !Ends(c, ran, k))
  {
    if Starts(ran, k) {
      assert Lasts(c, ran, k, k + 1);
    }
    if RecordingAt(c, ran, k) && !Ends(c, ran, k) {
      var j: nat :| Lasts(c, ran, j, k);
      assert Lasts(c, ran, j, k + 1);
    }
    if RecordingAt(c, ran, k + 1) && !Starts(ran, k) {
      var j: nat :| Lasts(c, ran, j, k + 1);
      assert j < k && Lasts(c, ran, j, k) && !Ends(c, ran, k);
    }
  }

  lemma {:induction false} SinceNext(c: nat, ran: seq<Ran>, j: nat, k: nat)
    requires k < |ran| && j <= k
    ensures RunsSince(c, ran, j, k + 1) <==>
            if j == k then Starts(ran, k) && !RecordingAt(c, ran, k) else RunsSince(c, ran, j, k) && !Ends(c, ran, k)
  {
  }

  // ------------------------------------------------------------------
  // The recorder follows the log
  // ------------------------------------------------------------------

  /** What the log says about a recorder before event k. */
  ghost predicate Matches(c: nat, ran: seq<Ran>, k: nat, r: R.Recorder)
    requires k <= |ran|
  {
    && r.channel == ChannelAt(c, ran, k)
    && (r.status.Recording? <==> RecordingAt(c, ran, k))
    && (r.status.Recording? ==> exists j: nat :: RunsSince(c, ran, j, k) && r.start == ran[j].at)
  }

  lemma {:induction false} RunOneMore(r: R.Recorder, ran: seq<Ran>, k: nat, a: R.Answers)
    requires k < |ran|
    ensures RunAll(r, ran[..k + 1], a) == RunEvent(RunAll(r, ran[..k], a), ran[k], a)
  {
    assert ran[..k + 1][..k] == ran[..k];
  }

  lemma {:induction false} EventMatches(c: nat, ran: seq<Ran>, k: nat, r: R.Recorder, a: R.Answers)
    requires k < |ran| && AllWell(a) && Matches(c, ran, k, r)
    ensures Matches(c, ran, k + 1, RunEvent(r, ran[k], a))
  {
    RecordingNext(c, ran, k);
    var r' := RunEvent(r, ran[k], a);
    if r'.status.Recording? {
      if r.status.Recording? {
        var j: nat :| RunsSince(c, ran, j, k) && r.start == ran[j].at;
        SinceNext(c, ran, j, k);
        assert RunsSince(c, ran, j, k + 1) && r'.start == ran[j].at;
      } else {
        SinceNext(c, ran, k, k);
        assert RunsSince(c, ran, k, k + 1) && r'.start == ran[k].at;
      }
    }
  }

  /** For any log: the recorder records exactly when the log says so, on the channel
      last tuned to, since the first start after the last end. */
  lemma {:induction false} FollowsAnyLog(r: R.Recorder, ran: seq<Ran>, k: nat, a: R.Answers)
    requires k <= |ran| && !r.status.Recording? && AllWell(a)
    ensures Matches(r.channel, ran, k, RunAll(r, ran[..k], a))
  {
    if k == 0 {
      assert !RecordingAt(r.channel, ran, 0);
      assert ran[..0] == [];
    } else {
      FollowsAnyLog(r, ran, k - 1, a);
      RunOneMore(r, ran, k - 1, a);
      EventMatches(r.channel, ran, k - 1, RunAll(r, ran[..k - 1], a), a);
    }
  }

  /** The recording that event k ends, from event j. */
  ghost predicate Records(r: R.Recorder, ran: seq<Ran>, j: nat, k: nat, a: R.Answers)
    requires k < |ran| && j < |ran|
  {
    RunAll(r, ran[..k + 1], a).segments ==
    RunAll(r, ran[..k], a).segments + [R.Segment(ChannelAt(r.channel, ran, k), ran[j].at, ran[k].at)]
  }

  /** For any log: an event adds one segment when it ends a recording, from its
      start to now, on its channel, and none otherwise. */
  lemma {:induction false} SegmentsOfAnyLog(r: R.Recorder, ran: seq<Ran>, k: nat, a: R.Answers)
    requires k < |ran| && !r.status.Recording? && AllWell(a)
    ensures if RecordingAt(r.channel, ran, k) && Ends(r.channel, ran, k)
            then exists j: nat :: j < k && RunsSince(r.channel, ran, j, k) && Records(r, ran, j, k, a)
            else RunAll(r, ran[..k + 1], a).segments == RunAll(r, ran[..k], a).segments
  {
    FollowsAnyLog(r, ran, k, a);
    RunOneMore(r, ran, k, a);
    var s := RunAll(r, ran[..k], a);
    if s.status.Recording? && Ends(r.channel, ran, k) {
      var j: nat :| RunsSince(r.channel, ran, j, k) && s.start == ran[j].at;
      assert j < k && Records(r, ran, j, k, a);
    }
  }

  /** With later events running later: the segment from event k to event m is
      recorded exactly when no recording runs as event k starts one, and nothing
      between the two ends it. */
  lemma {:induction false} RecordedIff(r: R.Recorder, ran: seq<Ran>, k: nat, m: nat, a: R.Answers)
    requires k < m < |ran| && Starts(ran, k) && Ends(r.channel, ran, m) && Later(ran)
    requires !r.status.Recording? && AllWell(a)
    ensures Records(r, ran, k, m, a) <==>
            !RecordingAt(r.channel, ran, k) && forall i: nat :: k < i < m ==> !Ends(r.channel, ran, i)
  {
    SegmentsOfAnyLog(r, ran, m, a);
    var c, before, after := r.channel, RunAll(r, ran[..m], a).segments, RunAll(r, ran[..m + 1], a).segments;
    if RecordingAt(c, ran, m) {
      var j: nat :| j < m && RunsSince(c, ran, j, m) && Records(r, ran, j, m, a);
      assert after[|before|].from == ran[j].at;
      assert Records(r, ran, k, m, a) ==> after[|before|].from == ran[k].at;
      assert Records(r, ran, k, m, a) <==> j == k;
      if !RecordingAt(c, ran, k) && Lasts(c, ran, k, m) {
        OneStart(c, ran, j, k, m);
      }
    } else {
      assert !Lasts(c, ran, k, m);
      assert |after| == |before|;
    }
  }

  // ------------------------------------------------------------------
  // Bookings
  // ------------------------------------------------------------------

  /** In a sorted index the start of a booking comes before its stop. */
  lemma {:induction false} StartBeforeStop(list: seq<TimedEvent>, t: BookingTable, id: nat) returns (k: nat, m: nat)
    requires Sorted(list) && Indexed(list, t) && id in t && t[id].start < t[id].end
    ensures k < m < |list| && list[k] == Triple(id, t[id])[1] && list[m] == Triple(id, t[id])[2]
  {
    var start, stop := Triple(id, t[id])[1], Triple(id, t[id])[2];
    assert Expected(t, start) == 1 && Expected(t, stop) == 1;
    assert start in multiset(list) && stop in multiset(list);
    k :| 0 <= k < |list| && list[k] == start;
    m :| 0 <= m < |list| && list[m] == stop;
  }

  /** Any bookings whatever, the queue run until it is empty: a booking is recorded
      from the run of its start to the run of its stop exactly when no recording is
      running as its start runs, and no stop and no tune-in elsewhere runs in
      between. */
  lemma {:induction false} AnyBookingRecordedIff(
      list: seq<TimedEvent>, t: BookingTable, id: nat, t0: int, end: int, phase: int, r: R.Recorder, a: R.Answers)
      returns (k: nat, m: nat)
    requires Sorted(list) && Indexed(list, t) && id in t && t[id].start < t[id].end
    requires t0 <= end && RunTime(list, |list| - 1, t0, phase) <= end
    requires !r.status.Recording? && AllWell(a)
    ensures var ran := Seconds(Queue(list, None, []), t0, end, phase).ran;
            && k < m < |ran| && ran[k].event == Triple(id, t[id])[1] && ran[m].event == Triple(id, t[id])[2]
            && (Records(r, ran, k, m, a) <==>
                !RecordingAt(r.channel, ran, k) && forall i: nat :: k < i < m ==> !Ends(r.channel, ran, i))
  {
    k, m := StartBeforeStop(list, t, id);
    ClosePlanRuns(list, t0, end, phase);
    var ran := Seconds(Queue(list, None, []), t0, end, phase).ran;
    RecordedIff(r, ran, k, m, a);
  }
}
