/** Bookings and the timed events derived from them: the list as an index of the
    bookings table. */
module Scheduled {
  import opened Bytes
  import opened TimedEvents

  datatype Booking = Booking(channel: nat, start: int, end: int)

  /** The events of a booking: tune in a minute before, start, stop. */
  function Triple(id: nat, b: Booking): seq<TimedEvent> {
    [TimedEvent(TuneIn(b.channel), id, b.start - 60), TimedEvent(RecordStart, id, b.start),
        TimedEvent(RecordStop, id, b.end)]
  }

  function Translate(list: seq<TimedEvent>, id: nat, b: Booking): seq<TimedEvent> {
    var t := Triple(id, b);
    InsertSorted(InsertSorted(InsertSorted(list, t[0]), t[1]), t[2])
  }

  datatype Row = Row(id: nat, booking: Booking)

  /** Rows translated one after the other into a list. */
  function TranslateAll(list: seq<TimedEvent>, rows: seq<Row>): seq<TimedEvent> {
    if rows == [] then list
    else
      var last := rows[|rows| - 1];
      Translate(TranslateAll(list, rows[..|rows| - 1]), last.id, last.booking)
  }

  function Rebuild(rows: seq<Row>): seq<TimedEvent> { TranslateAll([], rows) }

  type BookingTable = map<nat, Booking>

  /** The bookings a rebuild takes up. */
  function Upcoming(t: BookingTable, now: int): BookingTable { map id | id in t && t[id].start > now :: t[id] }

  function Without(t: BookingTable, id: nat): BookingTable { map i | i in t && i != id :: t[i] }

  /** The database's answer to the query for upcoming bookings: each once, by start. */
  ghost predicate IsAnswer(rows: seq<Row>, t: BookingTable) {
    && (forall i :: 0 <= i < |rows| ==> rows[i].id in t && t[rows[i].id] == rows[i].booking)
    && (forall i, j :: 0 <= i < j < |rows| ==>
         rows[i].id != rows[j].id && rows[i].booking.start <= rows[j].booking.start)
    && (forall id :: id in t ==> exists i :: 0 <= i < |rows| && rows[i].id == id)
  }

  datatype State = State(table: BookingTable, list: seq<TimedEvent>, slot: Option<TimedEvent>, enabled: bool)

  /** The row a booking is stored under, and the list without its old events. */
  function Key(id: nat, newId: nat): nat { if id == 0 then newId else id }
  function BaseList(s: State, id: nat): seq<TimedEvent> { if id == 0 then s.list else RemoveGroup(s.list, id) }

  /** Stores a new booking (id 0, under newId) or changes a stored one, and
      brings the list up to date. Changing an unknown id stores nothing. */
  function SetBooking(s: State, id: nat, b: Booking, newId: nat, now: int): (State, nat) {
    if b.start >= b.end then (s, 0)
    else
      var key := Key(id, newId);
      var table := if id == 0 || id in s.table then s.table[key := b] else s.table;
      var list := BaseList(s, id);
      (s.(table := table, list := if b.end > now then Translate(list, key, b) else list), key)
  }

  /** Clears list and slot; when switched on, rebuilds the list. */
  function Enable(s: State, on: bool, rows: seq<Row>): State {
    s.(list := if on then Rebuild(rows) else [], slot := None, enabled := on)
  }

  function RemoveBooking(s: State, id: nat, rows: seq<Row>): State {
    if id == 0 then s else Enable(s.(table := Without(s.table, id)), s.enabled, rows)
  }

  // ------------------------------------------------------------------
  // The list as an index
  // ------------------------------------------------------------------

  /** How often an event belongs into the list for a table: once for each of the
      three events of each booking. */
  function Expected(t: BookingTable, e: TimedEvent): nat {
    if e.group in t && e in Triple(e.group, t[e.group]) then 1 else 0
  }

  ghost predicate Indexed(list: seq<TimedEvent>, t: BookingTable) {
    forall e :: multiset(list)[e] == Expected(t, e)
  }

  lemma {:induction false} TranslateAdds(list: seq<TimedEvent>, id: nat, b: Booking)
    ensures forall e :: multiset(Translate(list, id, b))[e] == multiset(list)[e] + if e in Triple(id, b) then 1 else 0
  {
    var t := Triple(id, b);
    InsertAdds(list, t[0]);
    InsertAdds(InsertSorted(list, t[0]), t[1]);
    InsertAdds(InsertSorted(InsertSorted(list, t[0]), t[1]), t[2]);
  }

  lemma {:induction false} TranslateIndexed(list: seq<TimedEvent>, t: BookingTable, id: nat, b: Booking)
    requires Indexed(list, t) && id !in t
    ensures Indexed(Translate(list, id, b), t[id := b])
  {
    TranslateAdds(list, id, b);
    forall e ensures multiset(Translate(list, id, b))[e] == Expected(t[id := b], e) {
      assert multiset(list)[e] == Expected(t, e);
    }
  }

  lemma {:induction false} RemoveIndexed(list: seq<TimedEvent>, t: BookingTable, id: nat)
    requires Indexed(list, t)
    ensures Indexed(RemoveGroup(list, id), Without(t, id))
  {
    RemoveGroupMembers(list, id);
    forall e ensures multiset(RemoveGroup(list, id))[e] == Expected(Without(t, id), e) {
      assert multiset(list)[e] == Expected(t, e);
    }
  }

  function TableOf(rows: seq<Row>): BookingTable {
    if rows == [] then map[] else TableOf(rows[..|rows| - 1])[rows[|rows| - 1].id := rows[|rows| - 1].booking]
  }

  lemma {:induction false} TableOfRows(rows: seq<Row>)
    requires forall i, j :: 0 <= i < j < |rows| ==> rows[i].id != rows[j].id
    ensures forall i :: 0 <= i < |rows| ==> rows[i].id in TableOf(rows) && TableOf(rows)[rows[i].id] == rows[i].booking
    ensures forall id :: id in TableOf(rows) ==> exists i :: 0 <= i < |rows| && rows[i].id == id
  {
    if rows != [] {
      var before := rows[..|rows| - 1];
      TableOfRows(before);
      forall i | 0 <= i < |rows|
        ensures rows[i].id in TableOf(rows) && TableOf(rows)[rows[i].id] == rows[i].booking
      {
        assert i < |rows| - 1 ==> before[i] == rows[i];
      }
      forall id | id in TableOf(rows) ensures exists i :: 0 <= i < |rows| && rows[i].id == id {
        if id != rows[|rows| - 1].id {
          assert id in TableOf(before);
          var i :| 0 <= i < |before| && before[i].id == id;
          assert rows[i].id == id;
        }
      }
    }
  }

  lemma {:induction false} AnswerIsTable(rows: seq<Row>, t: BookingTable)
    requires IsAnswer(rows, t)
    ensures TableOf(rows) == t
  {
    TableOfRows(rows);
    forall id | id in t ensures id in TableOf(rows) && TableOf(rows)[id] == t[id] {
      var i :| 0 <= i < |rows| && rows[i].id == id;
    }
  }

  lemma {:induction false} RebuildIndexed(rows: seq<Row>)
    requires forall i, j :: 0 <= i < j < |rows| ==> rows[i].id != rows[j].id
    ensures Indexed(Rebuild(rows), TableOf(rows))
  {
    if rows != [] {
      var before, last := rows[..|rows| - 1], rows[|rows| - 1];
      RebuildIndexed(before);
      TableOfRows(before);
      assert forall i :: 0 <= i < |before| ==> before[i] == rows[i] && before[i].id != last.id;
      TranslateIndexed(Rebuild(before), TableOf(before), last.id, last.booking);
    }
  }

  // ------------------------------------------------------------------
  // Exactly when the operations keep the index
  // ------------------------------------------------------------------

  /** Removing a booking or switching on leaves exactly the events of the
      bookings that start later; those of running ones are gone. */
  lemma {:induction false} RebuildKeepsUpcoming(s: State, id: nat, rows: seq<Row>, now: int)
    requires id != 0 && s.enabled && IsAnswer(rows, Upcoming(Without(s.table, id), now))
    ensures var s' := RemoveBooking(s, id, rows);
            Indexed(s'.list, Upcoming(s'.table, now)) && s'.slot.None?
  {
    AnswerIsTable(rows, Upcoming(Without(s.table, id), now));
    RebuildIndexed(rows);
  }

  /** A booking is refused exactly when it does not end after its start. */
  lemma {:induction false} RefusedIff(s: State, id: nat, b: Booking, newId: nat, now: int)
    requires Key(id, newId) != 0
    ensures SetBooking(s, id, b, newId, now).1 == 0 <==> b.end <= b.start
    ensures b.end <= b.start ==> SetBooking(s, id, b, newId, now).0 == s
  {
  }

  /** Whatever was in the list before: after a removal the stop of any other
      booking is still there exactly when the booking starts later. */
  lemma {:induction false} StopSurvivesIff(s: State, gone: nat, rows: seq<Row>, now: int, id: nat)
    requires gone != 0 && s.enabled && IsAnswer(rows, Upcoming(Without(s.table, gone), now))
    requires id in s.table && id != gone
    ensures Triple(id, s.table[id])[2] in RemoveBooking(s, gone, rows).list <==> s.table[id].start > now
  {
    RebuildKeepsUpcoming(s, gone, rows, now);
    var stop, list := Triple(id, s.table[id])[2], RemoveBooking(s, gone, rows).list;
    assert stop in list <==> multiset(list)[stop] > 0;
  }

  lemma {:induction false} IndexIsUnique(a: seq<TimedEvent>, b: seq<TimedEvent>, t: BookingTable)
    requires Indexed(a, t)
    ensures Indexed(b, t) <==> multiset(a) == multiset(b)
  {
    if Indexed(b, t) {
      forall e ensures multiset(a)[e] == multiset(b)[e] {
        assert multiset(a)[e] == Expected(t, e);
      }
    }
  }

  /** A rebuild gives back the events of a list exactly when that list holds all
      the events of the bookings that start later and no others. */
  lemma {:induction false} RebuildAgreesIff(list: seq<TimedEvent>, t: BookingTable, rows: seq<Row>, now: int)
    requires IsAnswer(rows, Upcoming(t, now))
    ensures multiset(Rebuild(rows)) == multiset(list) <==> Indexed(list, Upcoming(t, now))
  {
    AnswerIsTable(rows, Upcoming(t, now));
    RebuildIndexed(rows);
    IndexIsUnique(Rebuild(rows), list, Upcoming(t, now));
  }

  /** The list holds of a group exactly what the table has for it. */
  ghost predicate GroupIndexed(list: seq<TimedEvent>, t: BookingTable, group: nat) {
    forall e: TimedEvent :: e.group == group ==> multiset(list)[e] == Expected(t, e)
  }

  lemma {:induction false} BaseCounts(s: State, id: nat, newId: nat)
    requires id == 0 ==> forall e :: e in s.list ==> e.group != newId
    ensures forall e: TimedEvent ::
              multiset(BaseList(s, id))[e] == if e.group != Key(id, newId) then multiset(s.list)[e] else 0
  {
    if id == 0 {
      forall e: TimedEvent ensures e.group == newId ==> multiset(s.list)[e] == 0 {
        assert e in multiset(s.list) <==> e in s.list;
      }
    } else {
      RemoveGroupMembers(s.list, id);
    }
  }

  /** What setting a booking does to the number of each event in the list. */
  lemma {:induction false} SetCounts(s: State, id: nat, b: Booking, newId: nat, now: int)
    requires b.start < b.end && (id == 0 ==> forall e :: e in s.list ==> e.group != newId)
    ensures var key, list := Key(id, newId), SetBooking(s, id, b, newId, now).0.list;
            forall e :: multiset(list)[e] ==
              if e.group != key then multiset(s.list)[e] else if b.end > now && e in Triple(key, b) then 1 else 0
  {
    BaseCounts(s, id, newId);
    ListedCounts(BaseList(s, id), Key(id, newId), b, now);
  }

  lemma {:induction false} ListedCounts(list: seq<TimedEvent>, id: nat, b: Booking, now: int)
    ensures forall e :: multiset(if b.end > now then Translate(list, id, b) else list)[e]
                        == multiset(list)[e] + if b.end > now && e in Triple(id, b) then 1 else 0
  {
    TranslateAdds(list, id, b);
  }

  /** For any list and table: setting a booking leaves the other groups alone,
      and of its own group exactly what the table has for it if and only if the
      booking is stored and not over, or neither. The database gives a new
      booking an id that nothing uses. */
  lemma {:induction false} SetKeepsIndexIff(s: State, id: nat, b: Booking, newId: nat, now: int)
    requires b.start < b.end
    requires id == 0 ==> newId !in s.table && forall e :: e in s.list ==> e.group != newId
    ensures var key, s' := Key(id, newId), SetBooking(s, id, b, newId, now).0;
            && (GroupIndexed(s'.list, s'.table, key) <==> (b.end > now <==> id == 0 || id in s.table))
            && (forall group :: group != key ==>
                 (GroupIndexed(s'.list, s'.table, group) <==> GroupIndexed(s.list, s.table, group)))
  {
    var key, s' := Key(id, newId), SetBooking(s, id, b, newId, now).0;
    SetCounts(s, id, b, newId, now);
    var e := Triple(key, b)[0];
    assert e in Triple(key, b);
    assert multiset(s'.list)[e] == if b.end > now then 1 else 0;
    assert Expected(s'.table, e) == if id == 0 || id in s.table then 1 else 0;
    forall e: TimedEvent | e.group != key
      ensures multiset(s'.list)[e] == multiset(s.list)[e] && Expected(s'.table, e) == Expected(s.table, e)
    {
    }
  }

  lemma {:induction false} GroupsIndexed(list: seq<TimedEvent>, t: BookingTable)
    ensures Indexed(list, t) <==> forall group :: GroupIndexed(list, t, group)
  {
    if forall group :: GroupIndexed(list, t, group) {
      forall e ensures multiset(list)[e] == Expected(t, e) {
        assert GroupIndexed(list, t, e.group);
      }
    }
  }

  /** An unused id: what a complete index makes of it. */
  lemma {:induction false} UnusedId(s: State, newId: nat)
    requires Indexed(s.list, s.table) && newId !in s.table
    ensures forall e :: e in s.list ==> e.group != newId
  {
    forall e | e in s.list ensures e.group != newId {
      assert multiset(s.list)[e] == Expected(s.table, e);
    }
  }

  /** Hence a complete index stays one under the same condition. */
  lemma {:induction false} SetKeepsWholeIndexIff(s: State, id: nat, b: Booking, newId: nat, now: int)
    requires Indexed(s.list, s.table) && newId !in s.table && b.start < b.end
    ensures var s' := SetBooking(s, id, b, newId, now).0;
            Indexed(s'.list, s'.table) <==> (b.end > now <==> id == 0 || id in s.table)
  {
    var s' := SetBooking(s, id, b, newId, now).0;
    UnusedId(s, newId);
    SetKeepsIndexIff(s, id, b, newId, now);
    GroupsIndexed(s.list, s.table);
    GroupsIndexed(s'.list, s'.table);
    assert Indexed(s'.list, s'.table) ==> GroupIndexed(s'.list, s'.table, Key(id, newId));
  }

  /** Changing an id that is not stored: events without a row. */
  lemma {:induction false} UnknownBookingListed() returns (s: State, b: Booking)
    ensures s.table == map[] && s.list == [] && s.slot.None?
    ensures var s' := SetBooking(s, 7, b, 1, 0).0; s'.table == map[] && forall e :: e in Triple(7, b) ==> e in s'.list
  {
    s, b := State(map[], [], None, true), Booking(5, 1000, 2000);
    var list := SetBooking(s, 7, b, 1, 0).0.list;
    SetCounts(s, 7, b, 1, 0);
    forall e | e in Triple(7, b) ensures e in list {
      assert e.group == 7;
      assert multiset(list)[e] == 1;
    }
  }

  /** Whatever is in list and slot: changing a booking does not reach the event in
      flight. Nothing but the new events of its group is left to run exactly when
      the slot holds no other event of the group. */
  lemma {:induction false} InFlightSurvivesIff(s: State, id: nat, b: Booking, newId: nat, now: int)
    requires id != 0 && b.start < b.end
    ensures var s' := SetBooking(s, id, b, newId, now).0;
            (forall e: TimedEvent :: e.group == id && (e in s'.list || s'.slot == Some(e)) ==> e in Triple(id, b))
            <==> (s.slot.Some? && s.slot.value.group == id ==> s.slot.value in Triple(id, b))
  {
    var s' := SetBooking(s, id, b, newId, now).0;
    SetCounts(s, id, b, newId, now);
    forall e: TimedEvent | e.group == id && e in s'.list ensures e in Triple(id, b) {
      assert multiset(s'.list)[e] > 0;
    }
  }

  // ------------------------------------------------------------------
  // Histories
  // ------------------------------------------------------------------

  datatype ScheduleOp =
    | Set(id: nat, booking: Booking, newId: nat)
    | Remove(id: nat, rows: seq<Row>)
    | SwitchOn(rows: seq<Row>)

  function Do(s: State, op: ScheduleOp, now: int): State {
    match op
    case Set(id, b, newId) => SetBooking(s, id, b, newId, now).0
    case Remove(id, rows) => RemoveBooking(s, id, rows)
    case SwitchOn(rows) => Enable(s, true, rows)
  }

  ghost predicate TableInWindow(t: BookingTable, w: int) {
    forall id :: id in t ==> w <= t[id].start - 60 && t[id].start < t[id].end < w + 0x8000_0000
  }

  /** The list is a sorted index of the table and nothing is in flight. */
  ghost predicate IsIndex(s: State, w: int) {
    s.enabled && s.slot.None? && Sorted(s.list) && InWindow(s.list, w) && Indexed(s.list, s.table)
        && TableInWindow(s.table, w)
  }

  /** A history before the first booking begins: stored bookings and new ones lie
      ahead, changes name stored bookings, the database answers its query. */
  ghost predicate Ahead(s: State, op: ScheduleOp, now: int, w: int) {
    && (forall id :: id in s.table ==> s.table[id].start > now)
    && match op
       case Set(id, b, newId) =>
         && (b.start < b.end ==> b.start > now && w <= b.start - 60 && b.end < w + 0x8000_0000)
         && newId !in s.table && (id == 0 || id in s.table)
       case Remove(id, rows) => IsAnswer(rows, Upcoming(Without(s.table, id), now))
       case SwitchOn(rows) => IsAnswer(rows, Upcoming(s.table, now))
  }

  lemma {:induction false} TranslateSorted(list: seq<TimedEvent>, id: nat, b: Booking, w: int)
    requires Sorted(list) && InWindow(list, w) && w <= b.start - 60 && b.start < b.end < w + 0x8000_0000
    ensures Sorted(Translate(list, id, b)) && InWindow(Translate(list, id, b), w)
  {
    var t := Triple(id, b);
    InsertKeepsSorted(list, t[0], w);
    InsertKeepsSorted(InsertSorted(list, t[0]), t[1], w);
    InsertKeepsSorted(InsertSorted(InsertSorted(list, t[0]), t[1]), t[2], w);
  }

  lemma {:induction false} RebuildSorted(rows: seq<Row>, w: int)
    requires forall i :: 0 <= i < |rows| ==>
               w <= rows[i].booking.start - 60 && rows[i].booking.start < rows[i].booking.end < w + 0x8000_0000
    ensures Sorted(Rebuild(rows)) && InWindow(Rebuild(rows), w)
  {
    if rows != [] {
      RebuildSorted(rows[..|rows| - 1], w);
      TranslateSorted(Rebuild(rows[..|rows| - 1]), rows[|rows| - 1].id, rows[|rows| - 1].booking, w);
    }
  }

  lemma {:induction false} RebuildIsIndex(rows: seq<Row>, t: BookingTable, now: int, w: int)
    requires IsAnswer(rows, Upcoming(t, now)) && TableInWindow(t, w) && forall id :: id in t ==> t[id].start > now
    ensures Sorted(Rebuild(rows)) && InWindow(Rebuild(rows), w) && Indexed(Rebuild(rows), t)
  {
    assert Upcoming(t, now) == t;
    AnswerIsTable(rows, t);
    RebuildIndexed(rows);
    RebuildSorted(rows, w);
  }

  lemma {:induction false} OpKeepsIndex(s: State, op: ScheduleOp, now: int, w: int)
    requires IsIndex(s, w) && Ahead(s, op, now, w)
    ensures IsIndex(Do(s, op, now), w)
  {
    match op
    case Set(id, b, newId) =>
      if b.start < b.end {
        SetKeepsWholeIndexIff(s, id, b, newId, now);
        RemoveGroupKeepsSorted(s.list, id);
        RemoveGroupMembers(s.list, id);
        TranslateSorted(if id == 0 then s.list else RemoveGroup(s.list, id), if id == 0 then newId else id, b, w);
      }
    case Remove(id, rows) =>
      RebuildIsIndex(rows, Without(s.table, id), now, w);
    case SwitchOn(rows) =>
      RebuildIsIndex(rows, s.table, now, w);
  }

  datatype Timed = Timed(op: ScheduleOp, now: int)

  function DoAll(s: State, ops: seq<Timed>): State
    decreases |ops|
  {
    if ops == [] then s else DoAll(Do(s, ops[0].op, ops[0].now), ops[1..])
  }

  ghost predicate AllAhead(s: State, ops: seq<Timed>, w: int)
    decreases |ops|
  {
    ops == [] || (Ahead(s, ops[0].op, ops[0].now, w) && AllAhead(Do(s, ops[0].op, ops[0].now), ops[1..], w))
  }

  /** After any history of setting and removing bookings that lie ahead, the list
      is time-sorted and holds exactly the three events of each stored booking. */
  lemma {:induction false} HistoryKeepsIndex(s: State, ops: seq<Timed>, w: int)
    requires IsIndex(s, w) && AllAhead(s, ops, w)
    ensures IsIndex(DoAll(s, ops), w)
    decreases |ops|
  {
    if ops != [] {
      OpKeepsIndex(s, ops[0].op, ops[0].now, w);
      HistoryKeepsIndex(Do(s, ops[0].op, ops[0].now), ops[1..], w);
    }
  }
}
