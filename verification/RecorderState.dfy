/** The recorder as a state machine over channel, record file and record listener. */
module RecorderState {
  import opened Bytes
  import opened WriteLoops

  datatype Status = Unknown | Recording | Stopped

  /** One finished recording: the channel tuned when it stopped, and its times. */
  datatype Segment = Segment(channel: nat, from: int, to: int)

  /** file is what was written to the open record file; segments are the
      recordings closed so far; broken says that a write to the open file failed. */
  datatype Recorder = Recorder(
    status: Status, fd: Option<nat>, listening: bool, channel: nat,
    size: nat, start: int, end: int, file: seq<Byte>, broken: bool, segments: seq<Segment>)

  const NEW_RECORDER := Recorder(Unknown, None, false, 0, 0, 0, 0, [], false, [])

  /** What the outside answers: the channel is in the database, the stream is
      running, a file name could be made, the file could be opened. */
  datatype Answers = Answers(found: bool, streaming: bool, named: bool, handle: Option<nat>)

  function RecordStop(r: Recorder, now: int): Recorder {
    r.(listening := false, fd := None, status := Stopped, end := now,
       segments := if r.status.Recording? then r.segments + [Segment(r.channel, r.start, now)] else r.segments)
  }

  predicate Starts(r: Recorder, a: Answers) {
    !r.status.Recording? && a.streaming && a.named && a.handle.Some?
  }

  function RecordStart(r: Recorder, now: int, a: Answers): Recorder {
    if Starts(r, a) then r.(fd := a.handle, size := 0, start := now, status := Recording, listening := true,
        file := [], broken := false)
    else r
  }

  /** The same channel again is a no-op; a known one ends a running recording
      first; an unknown one changes nothing. */
  function SetChannel(r: Recorder, channel: nat, now: int, a: Answers): Recorder {
    if r.channel == channel || !a.found then r
    else (if r.status.Recording? then RecordStop(r, now) else r).(channel := channel)
  }

  /** Data from the record listener. After a write error the listener's own worker
      stops the recording: it takes the listener off the list and then waits for
      the worker, which is itself. This is the state in which it stays. */
  function RecordData(r: Recorder, data: seq<Byte>, answers: seq<WriteAnswer>): Recorder {
    var o := RecordTransfer(|data|, answers, 0);
    var r' := r.(file := r.file + data[..o.offset]);
    match o.result
    case Done => r'.(size := r.size + |data|)
    case Failed => r'.(broken := true, listening := false)
    case Running => r'
  }

  datatype RecorderOp =
    | Tune(channel: nat)
    | Start
    | Stop
    | Incoming(data: seq<Byte>, answers: seq<WriteAnswer>)

  /** Data comes only while the listener is registered, and the callback returns. */
  predicate Possible(r: Recorder, op: RecorderOp) {
    op.Incoming? ==> r.listening && RecordTransfer(|op.data|, op.answers, 0).result != Running
  }

  function Apply(r: Recorder, op: RecorderOp, now: int, a: Answers): Recorder {
    if !Possible(r, op) then r
    else match op
      case Tune(c) => SetChannel(r, c, now, a)
      case Start => RecordStart(r, now, a)
      case Stop => RecordStop(r, now)
      case Incoming(data, answers) => RecordData(r, data, answers)
  }

  datatype Call = Call(op: RecorderOp, now: int, a: Answers)

  function ApplyAll(r: Recorder, calls: seq<Call>): Recorder {
    if calls == [] then r
    else
      var c := calls[|calls| - 1];
      Apply(ApplyAll(r, calls[..|calls| - 1]), c.op, c.now, c.a)
  }

  /** What holds of the recorder in every state: the file is open while it is
      RECORDING, the listener is there while no write has failed, and until then
      the reported size is what was written since the start. */
  ghost predicate Consistent(r: Recorder) {
    && (r.status.Recording? <==> r.fd.Some?)
    && (r.listening <==> r.status.Recording? && !r.broken)
    && (if r.broken then r.size <= |r.file| else r.size == |r.file|)
  }

  /** In every reachable state, whatever is called and whatever fails. */
  lemma {:induction false} AlwaysConsistent(calls: seq<Call>)
    ensures Consistent(ApplyAll(NEW_RECORDER, calls))
  {
    if calls != [] {
      AlwaysConsistent(calls[..|calls| - 1]);
    }
  }

  // ------------------------------------------------------------------
  // Exactly when status, file and listener agree
  // ------------------------------------------------------------------

  predicate Agree(r: Recorder) {
    (r.status.Recording? <==> r.fd.Some?) && (r.status.Recording? <==> r.listening)
  }

  /** Call i hands data to the recorder and a write fails. */
  predicate FailsAt(calls: seq<Call>, i: nat)
    requires i < |calls|
  {
    var op := calls[i].op;
    Possible(ApplyAll(NEW_RECORDER, calls[..i]), op) && op.Incoming?
        && RecordTransfer(|op.data|, op.answers, 0).result == Failed
  }

  /** Call i stops the recording, or changes to another channel that is known. */
  predicate StopsAt(calls: seq<Call>, i: nat)
    requires i < |calls|
  {
    var op := calls[i].op;
    op.Stop? || (op.Tune? && calls[i].a.found && op.channel != ApplyAll(NEW_RECORDER, calls[..i]).channel)
  }

  /** A write failed, and nobody has stopped the recording since. */
  ghost predicate ErrorPending(calls: seq<Call>) {
    exists i :: 0 <= i < |calls| && FailsAt(calls, i) && forall j :: i < j < |calls| ==> !StopsAt(calls, j)
  }

  lemma {:induction false} SamePrefixes(calls: seq<Call>, n: nat, i: nat)
    requires i < n <= |calls|
    ensures FailsAt(calls[..n], i) == FailsAt(calls, i) && StopsAt(calls[..n], i) == StopsAt(calls, i)
  {
    assert calls[..n][..i] == calls[..i];
  }

  lemma {:induction false} ErrorPendingLast(calls: seq<Call>)
    requires calls != []
    ensures var n := |calls| - 1;
            ErrorPending(calls) <==> FailsAt(calls, n) || (ErrorPending(calls[..n]) && !StopsAt(calls, n))
  {
    var n := |calls| - 1;
    forall i | 0 <= i < n
      ensures FailsAt(calls[..n], i) == FailsAt(calls, i) && StopsAt(calls[..n], i) == StopsAt(calls, i)
    {
      SamePrefixes(calls, n, i);
    }
    if ErrorPending(calls[..n]) && !StopsAt(calls, n) {
      var i :| 0 <= i < n && FailsAt(calls[..n], i) && forall j :: i < j < n ==> !StopsAt(calls[..n], j);
      assert forall j :: i < j < |calls| ==> !StopsAt(calls, j);
    }
    if ErrorPending(calls) && !FailsAt(calls, n) {
      var i :| 0 <= i < |calls| && FailsAt(calls, i) && forall j :: i < j < |calls| ==> !StopsAt(calls, j);
      assert FailsAt(calls[..n], i);
    }
  }

  lemma {:induction false} PendingMeans(calls: seq<Call>)
    ensures var r := ApplyAll(NEW_RECORDER, calls); r.status.Recording? && r.broken <==> ErrorPending(calls)
  {
    if calls != [] {
      var n := |calls| - 1;
      PendingMeans(calls[..n]);
      AlwaysConsistent(calls[..n]);
      ErrorPendingLast(calls);
    }
  }

  /** In every reachable state status, open file and registered listener agree
      exactly when no write error is pending. Otherwise the recorder says RECORDING
      and holds the file open, without a listener, and refuses to start again. */
  lemma {:induction false} AgreeIff(calls: seq<Call>)
    ensures var r := ApplyAll(NEW_RECORDER, calls);
            && (Agree(r) <==> !ErrorPending(calls))
            && (ErrorPending(calls) ==> r.status.Recording? && r.fd.Some? && !r.listening && forall a :: !Starts(r, a))
  {
    AlwaysConsistent(calls);
    PendingMeans(calls);
  }

  /** Such a state is reached by a start and one failing write. */
  lemma {:induction false} ErrorDisagrees(handle: nat)
    ensures var calls := [Call(Start, 0, Answers(true, true, true, Some(handle))),
                          Call(Incoming([0x47], [WriteFailed]), 1, Answers(true, true, true, None))];
            !Agree(ApplyAll(NEW_RECORDER, calls))
  {
    var c, d := Call(Start, 0, Answers(true, true, true, Some(handle))),
        Call(Incoming([0x47], [WriteFailed]), 1, Answers(true, true, true, None));
    assert [c, d][..1] == [c] && [c][..0] == [];
    assert ApplyAll(NEW_RECORDER, []) == NEW_RECORDER;
    assert ApplyAll(NEW_RECORDER, [c]) == RecordStart(NEW_RECORDER, 0, c.a);
  }

  // ------------------------------------------------------------------
  // Exactly when it records
  // ------------------------------------------------------------------

  /** Call i asks for a recording, with stream, name and file there. */
  predicate StartsAt(calls: seq<Call>, i: nat)
    requires i < |calls|
  {
    calls[i].op.Start? && calls[i].a.streaming && calls[i].a.named && calls[i].a.handle.Some?
  }

  ghost predicate StartedSince(calls: seq<Call>) {
    exists i :: 0 <= i < |calls| && StartsAt(calls, i) && forall j :: i < j < |calls| ==> !StopsAt(calls, j)
  }

  lemma {:induction false} StartedLast(calls: seq<Call>)
    requires calls != []
    ensures var n := |calls| - 1;
            StartedSince(calls) <==> StartsAt(calls, n) || (StartedSince(calls[..n]) && !StopsAt(calls, n))
  {
    var n := |calls| - 1;
    forall i | 0 <= i < n
      ensures StartsAt(calls[..n], i) == StartsAt(calls, i) && StopsAt(calls[..n], i) == StopsAt(calls, i)
    {
      SamePrefixes(calls, n, i);
    }
    if StartedSince(calls[..n]) && !StopsAt(calls, n) {
      var i :| 0 <= i < n && StartsAt(calls[..n], i) && forall j :: i < j < n ==> !StopsAt(calls[..n], j);
      assert forall j :: i < j < |calls| ==> !StopsAt(calls, j);
    }
    if StartedSince(calls) && !StartsAt(calls, n) {
      var i :| 0 <= i < |calls| && StartsAt(calls, i) && forall j :: i < j < |calls| ==> !StopsAt(calls, j);
      assert StartsAt(calls[..n], i);
    }
  }

  /** After any calls the recorder is RECORDING if and only if some call asked for it
      with a running stream, a name and a file, and nothing has stopped it since:
      no stop, and no change to another channel that is known. */
  lemma {:induction false} RecordingIff(calls: seq<Call>)
    ensures ApplyAll(NEW_RECORDER, calls).status.Recording? <==> StartedSince(calls)
  {
    if calls != [] {
      RecordingIff(calls[..|calls| - 1]);
      StartedLast(calls);
    }
  }

  /** Call i changes the channel, or keeps it. */
  predicate TunesAt(calls: seq<Call>, i: nat)
    requires i < |calls|
  {
    calls[i].op.Tune? && calls[i].a.found
  }

  /** The channel is the last known one asked for, and 0 before any. */
  lemma {:induction false} ChannelIsLastTuned(calls: seq<Call>)
    ensures var c := ApplyAll(NEW_RECORDER, calls).channel;
            || (c == 0 && forall i :: 0 <= i < |calls| ==> !TunesAt(calls, i))
            || exists i :: 0 <= i < |calls| && TunesAt(calls, i) && calls[i].op.channel == c &&
                           forall j :: i < j < |calls| ==> !TunesAt(calls, j)
  {
    if calls != [] {
      var n := |calls| - 1;
      ChannelIsLastTuned(calls[..n]);
      var c := ApplyAll(NEW_RECORDER, calls).channel;
      if TunesAt(calls, n) {
        assert c == calls[n].op.channel;
      } else {
        assert c == ApplyAll(NEW_RECORDER, calls[..n]).channel;
        if i :| 0 <= i < n && TunesAt(calls[..n], i) && calls[..n][i].op.channel == c &&
                forall j :: i < j < n ==> !TunesAt(calls[..n], j) {
          assert TunesAt(calls, i);
          forall j | i < j < |calls| ensures !TunesAt(calls, j) {
            assert j < n ==> !TunesAt(calls[..n], j);
          }
        } else {
          assert forall i :: 0 <= i < n ==> TunesAt(calls, i) == TunesAt(calls[..n], i);
        }
      }
    }
  }

  /** A recording that starts has written nothing yet, to the file it was given; one
      that stops is closed at that time and kept as a segment. */
  lemma {:induction false} StartAndStopMean(r: Recorder, now: int, a: Answers)
    ensures !r.status.Recording? && a.streaming && a.named && a.handle.Some? ==>
              var s := RecordStart(r, now, a);
              s.status.Recording? && s.listening && s.fd == a.handle && s.file == [] && s.size == 0 && s.start == now
              && !s.broken && s.channel == r.channel && s.segments == r.segments
    ensures r.status.Recording? || !a.streaming || !a.named || a.handle.None? ==> RecordStart(r, now, a) == r
    ensures var s := RecordStop(r, now);
            && s.status == Stopped && s.fd.None? && !s.listening && s.end == now
            && s.channel == r.channel && s.file == r.file && s.size == r.size
            && s.segments == r.segments + if r.status.Recording? then [Segment(r.channel, r.start, now)] else []
  {
    assert r.segments + [] == r.segments;
  }
}
