/** The recorder object, updated in place: recording, timed events and the
    schedule. Each method does to the object what the value functions say. */
module DvbRecorder {
  import opened Bytes
  import opened WriteLoops
  import opened TimedEvents
  import opened Scheduled
  import opened PidTable
  import opened DvbListener
  import opened DvbReader
  import R = RecorderState
  import P = RecordingPlan

  /** The record callback, as the identity of a listener without a descriptor. */
  const RECORD_CALLBACK := 1

  predicate IsRecordListener(l: ReaderListener) { l.callback == RECORD_CALLBACK }

  predicate HasRecordListener(ls: seq<ReaderListener>) {
    exists i :: 0 <= i < |ls| && IsRecordListener(ls[i])
  }

  /** Registering the record callback keeps it on the list once. */
  lemma {:induction false} OnceMore(before: seq<ReaderListener>, after: seq<ReaderListener>, l: ReaderListener)
    requires forall i, j :: 0 <= i < j < |before| ==> !IsRecordListener(before[i]) || !IsRecordListener(before[j])
    requires l in after && IsRecordListener(l)
    requires after == before
             || (after == [l] + before && forall i :: 0 <= i < |before| ==> !IsRecordListener(before[i]))
    ensures HasRecordListener(after)
    ensures forall i, j :: 0 <= i < j < |after| ==> !IsRecordListener(after[i]) || !IsRecordListener(after[j])
  {
  }

  class DVBRecorder {
    const reader: DVBReader
    // recording
    var recordFilter: FilterType
    var recordStatus: R.Status
    var recordFd: Option<nat>
    var currentChannelId: nat
    var recordSize: nat
    var recordStart: int
    var recordEnd: int
    var file: seq<Byte>
    var broken: bool
    var segments: seq<R.Segment>
    // timed events
    var timedEvents: seq<TimedEvent>
    var inFlight: Option<TimedEvent>     // the event behind scheduled_event_source
    var ran: seq<Ran>
    // schedule
    var bookings: BookingTable
    var enabled: bool
    var timer: bool                      // the half-minute timer is installed

    /** The reader's list is in order and the record callback is on it at most once. */
    ghost predicate Valid()
      reads reader, reader.listeners
    {
      reader.ListenersValid() &&
      forall i, j :: 0 <= i < j < |reader.listeners| ==>
          !IsRecordListener(reader.listeners[i]) || !IsRecordListener(reader.listeners[j])
    }

    /** Listening is a fact about the reader: it has a listener for the record callback. */
    function Rec(): R.Recorder
      reads this, reader
    {
      R.Recorder(recordStatus, recordFd, HasRecordListener(reader.listeners), currentChannelId, recordSize,
          recordStart, recordEnd, file, broken, segments)
    }

    function Events(): Queue
      reads this
    {
      Queue(timedEvents, inFlight, ran)
    }

    function Schedule(): State
      reads this
    {
      State(bookings, timedEvents, inFlight, enabled)
    }

    constructor (reader: DVBReader, recordFilter: FilterType)
      requires reader.ListenersValid() && !HasRecordListener(reader.listeners)
      ensures Valid() && this.reader == reader && this.recordFilter == recordFilter
      ensures Rec() == R.NEW_RECORDER && Events() == Queue([], None, []) && Schedule() == State(map[], [], None, false)
      ensures !timer
    {
      this.reader, this.recordFilter := reader, recordFilter;
      recordStatus, recordFd := R.Unknown, None;
      currentChannelId, recordSize, recordStart, recordEnd := 0, 0, 0, 0;
      file, broken, segments := [], false, [];
      timedEvents, inFlight, ran := [], None, [];
      bookings, enabled, timer := map[], false, false;
    }

    // ----- recording -----

    method SetChannel(channel: nat, now: int, a: R.Answers) returns (ok: bool)
      requires Valid()
      modifies this`recordStatus, this`recordFd, this`currentChannelId, this`recordEnd, this`segments,
               reader`listeners, reader`tuneRequests, reader.listeners
      ensures Valid() && Rec() == R.SetChannel(old(Rec()), channel, now, a)
      ensures ok <==> currentChannelId == channel
      ensures reader.tuneRequests ==
              old(reader.tuneRequests) + if a.found && old(currentChannelId) != channel then [channel] else []
    {
      if currentChannelId == channel {
        return true;
      }
      if a.found {
        if recordStatus.Recording? {
          RecordStop(now);
        }
        reader.Tune(channel);
        currentChannelId := channel;
        return true;
      }
      return false;
    }

    method RecordStart(now: int, a: R.Answers) returns (ok: bool)
      requires Valid()
      modifies this`recordStatus, this`recordFd, this`recordSize, this`recordStart, this`file, this`broken,
               reader`listeners, reader.listeners
      ensures Valid() && Rec() == R.RecordStart(old(Rec()), now, a)
      ensures ok <==> R.Starts(old(Rec()), a)
    {
      if recordStatus.Recording? {
        return false;
      }
      if !a.streaming {
        return false;
      }
      if !a.named {
        return false;
      }
      if a.handle.None? {
        return false;
      }
      recordFd := a.handle;
      recordSize := 0;
      recordStart := now;
      recordStatus := R.Recording;
      file, broken := [], false;
      Listen();
      return true;
    }

    /** Registers the record callback and lets it run. */
    method Listen()
      requires Valid()
      modifies reader`listeners, reader.listeners
      ensures Valid() && HasRecordListener(reader.listeners)
    {
      var l := reader.SetListener(recordFilter, -1, RECORD_CALLBACK);
      assert IsRecordListener(l);
      OnceMore(old(reader.listeners), reader.listeners, l);
      var _ := reader.SetRunning(-1, RECORD_CALLBACK, true);
    }

    /** Takes the record callback off the reader's list. */
    method Unlisten()
      requires Valid()
      modifies reader`listeners, reader.listeners
      ensures Valid() && !HasRecordListener(reader.listeners)
    {
      var _ := reader.RemoveListener(-1, RECORD_CALLBACK);
    }

    method RecordStop(now: int)
      requires Valid()
      modifies this`recordStatus, this`recordFd, this`recordEnd, this`segments, reader`listeners, reader.listeners
      ensures Valid() && Rec() == R.RecordStop(old(Rec()), now)
    {
      Unlisten();
      if recordFd.Some? {
        recordFd := None;
      }
      if recordStatus.Recording? {
        segments := segments + [R.Segment(currentChannelId, recordStart, now)];
      }
      recordStatus := R.Stopped;
      recordEnd := now;
    }

    /** Data from the record listener; Running when the file never answers. After a
        write error the worker gets as far as taking its own listener off the list,
        and does not come back from waiting for itself. */
    method RecordCallback(data: seq<Byte>, answers: seq<WriteAnswer>) returns (result: Result)
      requires Valid()
      modifies this`recordSize, this`file, this`broken, reader`listeners, reader.listeners
      ensures Valid() && Rec() == R.RecordData(old(Rec()), data, answers)
      ensures result == RecordTransfer(|data|, answers, 0).result
    {
      var o, written := WriteRecord(data, answers);
      file := file + written;
      result := o.result;
      if result == Failed {
        broken := true;
        Unlisten();
      } else if result == Done {
        recordSize := recordSize + |data|;
      }
    }

    // ----- timed events -----

    method AddTimedEvent(e: TimedEvent)
      modifies this`timedEvents
      ensures timedEvents == InsertSorted(old(timedEvents), e)
    {
      var i := 0;
      assert timedEvents[0..] == timedEvents;
      while i < |timedEvents| && Compare(e, timedEvents[i]) > 0
        invariant 0 <= i <= |timedEvents| && timedEvents == old(timedEvents)
        invariant InsertSorted(timedEvents, e) == timedEvents[..i] + InsertSorted(timedEvents[i..], e)
      {
        assert timedEvents[i..][1..] == timedEvents[i + 1..];
        assert timedEvents[..i] + ([timedEvents[i]] + InsertSorted(timedEvents[i + 1..], e))
            == timedEvents[..i + 1] + InsertSorted(timedEvents[i + 1..], e);
        i := i + 1;
      }
      assert InsertSorted(timedEvents[i..], e) == [e] + timedEvents[i..];
      timedEvents := timedEvents[..i] + [e] + timedEvents[i..];
    }

    method RunTimedEvent(e: TimedEvent, now: int, a: R.Answers)
      requires Valid()
      modifies this`recordStatus, this`recordFd, this`currentChannelId, this`recordSize, this`recordStart,
               this`recordEnd, this`file, this`broken, this`segments, reader`listeners, reader`tuneRequests,
               reader.listeners
      ensures Valid() && Rec() == P.RunEvent(old(Rec()), Ran(e, now), a)
    {
      match e.kind {
        case TuneIn(channel) => var _ := SetChannel(channel, now, a);
        case RecordStart => var _ := RecordStart(now, a);
        case RecordStop => RecordStop(now);
      }
    }

    /** The idle function: runs the event in flight once its time has come. */
    method CheckTimedEvent(now: int, a: R.Answers) returns (again: bool)
      requires Valid()
      modifies this, reader`listeners, reader`tuneRequests, reader.listeners
      ensures Valid() && Events() == RunDue(old(Events()), now) && bookings == old(bookings)
              && enabled == old(enabled) && timer == old(timer)
      ensures Rec() ==
              if Due(old(Events()), now) then P.RunEvent(old(Rec()), Ran(old(inFlight.value), now), a) else old(Rec())
      ensures again <==> inFlight.Some?
    {
      if inFlight.None? {
        return false;
      }
      if inFlight.value.time <= now {
        var e := inFlight.value;
        inFlight := None;
        RunTimedEvent(e, now, a);
        ran := ran + [Ran(e, now)];
        return false;
      }
      return true;
    }

    /** Moves the head into the slot unless the slot is taken. */
    method ScheduleTimedEvent()
      requires timedEvents != []
      modifies this`timedEvents, this`inFlight
      ensures old(inFlight).Some? ==> Events() == old(Events())
      ensures old(inFlight).None? ==> Events() == Queue(old(timedEvents)[1..], Some(old(timedEvents)[0]), ran)
    {
      if inFlight.Some? {
        return;
      }
      inFlight := Some(timedEvents[0]);
      timedEvents := timedEvents[1..];
    }

    /** The timer's function. */
    method CheckTimedEvents(now: int)
      modifies this`timedEvents, this`inFlight
      ensures Events() == Tick(old(Events()), now)
    {
      if timedEvents == [] {
        return;
      }
      if timedEvents[0].time <= now + 30 {
        ScheduleTimedEvent();
      }
    }

    method TimedEventsClear()
      modifies this`timedEvents, this`inFlight
      ensures timedEvents == [] && inFlight.None?
    {
      timedEvents := [];
      inFlight := None;
    }

    /** Unlinks the events of a group one by one; the slot is not touched. */
    method TimedEventsRemoveGroup(group: nat)
      modifies this`timedEvents
      ensures timedEvents == RemoveGroup(old(timedEvents), group)
    {
      var kept, current := [], timedEvents;
      while current != []
        invariant kept + RemoveGroup(current, group) == RemoveGroup(timedEvents, group)
        invariant timedEvents == old(timedEvents)
        decreases |current|
      {
        if current[0].group != group {
          kept := kept + [current[0]];
        }
        current := current[1..];
      }
      assert kept + [] == kept;
      timedEvents := kept;
    }

    // ----- schedule -----

    method TranslateScheduledEvent(id: nat, b: Booking)
      modifies this`timedEvents
      ensures timedEvents == Translate(old(timedEvents), id, b)
    {
      AddTimedEvent(TimedEvent(TuneIn(b.channel), id, b.start - 60));
      AddTimedEvent(TimedEvent(EventKind.RecordStart, id, b.start));
      AddTimedEvent(TimedEvent(EventKind.RecordStop, id, b.end));
    }

    /** Adds (id 0) or changes a booking; newId is the row id the table would give. */
    method ScheduledEventSet(id: nat, b: Booking, newId: nat, now: int) returns (key: nat)
      modifies this`bookings, this`timedEvents
      ensures (Schedule(), key) == SetBooking(old(Schedule()), id, b, newId, now)
    {
      if b.start >= b.end {
        return 0;
      }
      if id == 0 {
        bookings := bookings[newId := b];
      } else if id in bookings {
        bookings := bookings[id := b];
      }
      key := id;
      if key != 0 {
        TimedEventsRemoveGroup(key);
      } else {
        key := newId;
      }
      if b.end > now {
        TranslateScheduledEvent(key, b);
      }
    }

    /** Translates the rows the table gives for upcoming bookings. */
    method FindUpcomingScheduledEvents(rows: seq<Row>)
      modifies this`timedEvents
      ensures timedEvents == TranslateAll(old(timedEvents), rows)
    {
      var i := 0;
      assert rows[..0] == [];
      while i < |rows|
        invariant 0 <= i <= |rows| && timedEvents == TranslateAll(old(timedEvents), rows[..i])
      {
        assert rows[..i + 1][..i] == rows[..i];
        TranslateScheduledEvent(rows[i].id, rows[i].booking);
        i := i + 1;
      }
      assert rows[..i] == rows;
    }

    method EnableScheduledEvents(enable: bool, rows: seq<Row>)
      modifies this`timedEvents, this`inFlight, this`enabled, this`timer
      ensures Schedule() == Enable(old(Schedule()), enable, rows)
      ensures timer == enable
    {
      TimedEventsClear();
      enabled := enable;
      if enable {
        FindUpcomingScheduledEvents(rows);
        if !timer {
          timer := true;
        }
      } else if timer {
        timer := false;
      }
    }

    method ScheduledEventRemove(id: nat, rows: seq<Row>)
      modifies this`bookings, this`timedEvents, this`inFlight, this`enabled, this`timer
      ensures Schedule() == RemoveBooking(old(Schedule()), id, rows)
      ensures id != 0 ==> timer == enabled
    {
      if id == 0 {
        return;
      }
      bookings := map i | i in bookings && i != id :: bookings[i];
      EnableScheduledEvents(enabled, rows);
    }
  }
}
