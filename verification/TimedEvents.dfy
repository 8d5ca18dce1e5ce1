/** The sorted list of timed events and the single slot of the event that is
    about to run. */
module TimedEvents {
  import opened Bytes

  datatype EventKind = TuneIn(channel: nat) | RecordStart | RecordStop

  datatype TimedEvent = TimedEvent(kind: EventKind, group: nat, time: int)

  /** A 64-bit difference cut down to the 32-bit integer a comparator returns. */
  function Int32(d: int): int { (d + 0x8000_0000) % 0x1_0000_0000 - 0x8000_0000 }

  function Compare(a: TimedEvent, b: TimedEvent): int { Int32(a.time - b.time) }

  /** The comparator has the sign of the difference exactly when the truncated
      value keeps it; within 2^31 seconds it always does. */
  lemma {:induction false} CompareSignIff(a: TimedEvent, b: TimedEvent)
    ensures var d, c := a.time - b.time, Compare(a, b);
            var low := d % 0x1_0000_0000;
            ((c > 0 <==> d > 0) && (c < 0 <==> d < 0)) <==>
            (if d == 0 then true else if d > 0 then 0 < low < 0x8000_0000 else low >= 0x8000_0000)
    ensures -0x8000_0000 <= a.time - b.time < 0x8000_0000 ==> Compare(a, b) == a.time - b.time
  {
  }

  /** Inserted in front of the first event that is not earlier. */
  function InsertSorted(list: seq<TimedEvent>, e: TimedEvent): seq<TimedEvent> {
    if list == [] then [e]
    else if Compare(e, list[0]) <= 0 then [e] + list
    else [list[0]] + InsertSorted(list[1..], e)
  }

  lemma {:induction false} InsertAdds(list: seq<TimedEvent>, e: TimedEvent)
    ensures multiset(InsertSorted(list, e)) == multiset(list) + multiset{e}
  {
    if list != [] {
      assert list == [list[0]] + list[1..];
      InsertAdds(list[1..], e);
    }
  }

  ghost predicate Sorted(list: seq<TimedEvent>) {
    forall i, j :: 0 <= i < j < |list| ==> list[i].time <= list[j].time
  }

  /** All times fit a window in which the comparator is exact. */
  ghost predicate InWindow(list: seq<TimedEvent>, w: int) {
    forall e :: e in list ==> w <= e.time < w + 0x8000_0000
  }

  lemma {:induction false} InsertKeepsSorted(list: seq<TimedEvent>, e: TimedEvent, w: int)
    requires Sorted(list) && InWindow(list, w) && w <= e.time < w + 0x8000_0000
    ensures Sorted(InsertSorted(list, e)) && InWindow(InsertSorted(list, e), w)
  {
    var r := InsertSorted(list, e);
    InsertAdds(list, e);
    forall x | x in r ensures w <= x.time < w + 0x8000_0000 {
      assert x in multiset(r);
    }
    if list != [] {
      assert list[0] in list;
      CompareSignIff(e, list[0]);
      if Compare(e, list[0]) > 0 {
        InsertKeepsSorted(list[1..], e, w);
        InsertAdds(list[1..], e);
        forall x | x in InsertSorted(list[1..], e) ensures list[0].time <= x.time {
          assert x in multiset(InsertSorted(list[1..], e));
          assert x == e || x in list[1..];
        }
      }
    }
  }

  /** Where the code puts an event: in front of the first one that does not
      compare as earlier. */
  function Place(list: seq<TimedEvent>, e: TimedEvent): (i: nat)
    ensures i <= |list| && (i < |list| ==> Compare(e, list[i]) <= 0)
    ensures forall k :: 0 <= k < i ==> Compare(e, list[k]) > 0
  {
    if list == [] || Compare(e, list[0]) <= 0 then 0 else 1 + Place(list[1..], e)
  }

  lemma {:induction false} InsertedAtPlace(list: seq<TimedEvent>, e: TimedEvent)
    ensures InsertSorted(list, e) == list[..Place(list, e)] + [e] + list[Place(list, e)..]
  {
    if list != [] && Compare(e, list[0]) > 0 {
      InsertedAtPlace(list[1..], e);
      var i := Place(list[1..], e);
      assert list[..i + 1] == [list[0]] + list[1..][..i] && list[i + 1..] == list[1..][i..];
    }
  }

  /** For any times: inserting keeps the list sorted exactly when the place the
      truncated comparisons lead to is the right one. */
  lemma {:induction false} InsertSortedIff(list: seq<TimedEvent>, e: TimedEvent)
    requires Sorted(list)
    ensures var i := Place(list, e);
            Sorted(InsertSorted(list, e)) <==>
            (i > 0 ==> list[i - 1].time <= e.time) && (i < |list| ==> e.time <= list[i].time)
  {
    InsertedAtPlace(list, e);
    var i, r := Place(list, e), InsertSorted(list, e);
    assert r[i] == e && (i > 0 ==> r[i - 1] == list[i - 1]) && (i < |list| ==> r[i + 1] == list[i]);
    if (i > 0 ==> list[i - 1].time <= e.time) && (i < |list| ==> e.time <= list[i].time) {
      forall j, k | 0 <= j < k < |r| ensures r[j].time <= r[k].time {
        assert r[j] == if j < i then list[j] else if j == i then e else list[j - 1];
        assert r[k] == if k < i then list[k] else if k == i then e else list[k - 1];
      }
    }
  }

  /** Outside such a window the list can come out unsorted. */
  lemma {:induction false} TruncationUnsorts() returns (list: seq<TimedEvent>, e: TimedEvent)
    ensures Sorted(list) && !Sorted(InsertSorted(list, e))
  {
    list, e := [TimedEvent(RecordStart, 1, 0)], TimedEvent(RecordStart, 2, 0x8000_0000);
    assert InsertSorted(list, e) == [e] + list;
    assert InsertSorted(list, e)[0].time > InsertSorted(list, e)[1].time;
  }

  function RemoveGroup(list: seq<TimedEvent>, group: nat): seq<TimedEvent> {
    if list == [] then []
    else (if list[0].group == group then [] else [list[0]]) + RemoveGroup(list[1..], group)
  }

  /** The events of one group, in list order. */
  function OfGroup(list: seq<TimedEvent>, group: nat): seq<TimedEvent> {
    if list == [] then []
    else (if list[0].group == group then [list[0]] else []) + OfGroup(list[1..], group)
  }

  /** Removing a group empties it and leaves every other group's events, in order. */
  lemma {:induction false} RemoveGroupFilters(list: seq<TimedEvent>, group: nat, other: nat)
    ensures OfGroup(RemoveGroup(list, group), other) == if other == group then [] else OfGroup(list, other)
  {
    if list != [] {
      RemoveGroupFilters(list[1..], group, other);
      var rest := RemoveGroup(list[1..], group);
      if list[0].group == group {
        assert RemoveGroup(list, group) == rest;
      } else {
        assert RemoveGroup(list, group)[1..] == rest;
      }
    }
  }

  lemma {:induction false} RemoveGroupMembers(list: seq<TimedEvent>, group: nat)
    ensures forall e :: multiset(RemoveGroup(list, group))[e] == if e.group == group then 0 else multiset(list)[e]
    ensures forall e :: e in RemoveGroup(list, group) ==> e in list
  {
    if list != [] {
      RemoveGroupMembers(list[1..], group);
      assert list == [list[0]] + list[1..];
    }
  }

  lemma {:induction false} RemoveGroupKeepsSorted(list: seq<TimedEvent>, group: nat)
    requires Sorted(list)
    ensures Sorted(RemoveGroup(list, group))
  {
    if list != [] {
      RemoveGroupKeepsSorted(list[1..], group);
      RemoveGroupMembers(list[1..], group);
      forall e | e in RemoveGroup(list[1..], group) ensures list[0].time <= e.time {
        assert e in list[1..];
      }
    }
  }

  // ------------------------------------------------------------------
  // The queue with its slot
  // ------------------------------------------------------------------

  datatype Ran = Ran(event: TimedEvent, at: int)

  /** slot is the event taken off the list and polled by the idle function; ran
      records what was run, and when. */
  datatype Queue = Queue(list: seq<TimedEvent>, slot: Option<TimedEvent>, ran: seq<Ran>)

  /** The half-minute timer. */
  function Tick(q: Queue, now: int): Queue {
    if q.list == [] || q.list[0].time > now + 30 || q.slot.Some? then q
    else q.(list := q.list[1..], slot := Some(q.list[0]))
  }

  predicate Due(q: Queue, now: int) { q.slot.Some? && q.slot.value.time <= now }

  /** The idle function. */
  function RunDue(q: Queue, now: int): Queue {
    if Due(q, now) then Queue(q.list, None, q.ran + [Ran(q.slot.value, now)]) else q
  }
}
