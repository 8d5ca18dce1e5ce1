/** The two loops that write a message piece by piece: to a listener's descriptor
    with poll, and to the record file. The kernel's answers are a parameter. */
module WriteLoops {
  import opened Bytes

  datatype PollAnswer = Ready | TimedOut | PollFailed

  /** Wrote(n) accepts at most what is offered. */
  datatype WriteAnswer = Wrote(n: nat) | Again | WriteFailed

  /** The answers met in one turn of the loop, and whether the listener is
      terminating by then. */
  datatype Attempt = Attempt(poll: PollAnswer, write: WriteAnswer, terminating: bool)

  /** Running is a loop that still waits for an answer. */
  datatype Result = Done | Failed | Running

  datatype Outcome = Outcome(result: Result, offset: nat, used: nat)

  function Min(a: nat, b: nat): nat { if a < b then a else b }

  /** The listener's loop from an offset with a number of hiccups behind it. */
  function Transfer(size: nat, turns: seq<Attempt>, offset: nat, errors: nat): (o: Outcome)
    requires offset <= size
    ensures offset <= o.offset <= size && o.used <= |turns|
    decreases |turns|
  {
    if offset == size then Outcome(Done, offset, 0)
    else if turns == [] then Outcome(Running, offset, 0)
    else
      var t := turns[0];
      if t.poll.PollFailed? then Outcome(Failed, offset, 1)
      else if t.poll.TimedOut? then
        if errors + 1 > 10 || t.terminating then Outcome(Failed, offset, 1)
        else OneMore(Transfer(size, turns[1..], offset, errors + 1))
      else match t.write
        case WriteFailed => Outcome(Failed, offset, 1)
        case Again => OneMore(Transfer(size, turns[1..], offset, errors + 1))
        case Wrote(n) =>
          if n == 0 then Outcome(Done, offset, 1)
          else OneMore(Transfer(size, turns[1..], offset + Min(n, size - offset), errors))
  }

  function OneMore(o: Outcome): Outcome { o.(used := o.used + 1) }

  /** Writes data to a listener's descriptor; fd collects what the kernel took. */
  method WriteDataFull(data: seq<Byte>, turns: seq<Attempt>) returns (o: Outcome, fd: seq<Byte>)
    ensures o == Transfer(|data|, turns, 0, 0)
    ensures fd == data[..o.offset]
  {
    var offset, errors, i := 0, 0, 0;
    fd := [];
    assert turns[0..] == turns;
    while offset < |data| && i < |turns|
      invariant 0 <= offset <= |data| && 0 <= i <= |turns| && 0 <= errors
      invariant fd == data[..offset]
      invariant var rest := Transfer(|data|, turns[i..], offset, errors);
                Transfer(|data|, turns, 0, 0) == rest.(used := rest.used + i)
      decreases |turns| - i
    {
      assert turns[i..][1..] == turns[i + 1..];
      var t, nw := turns[i], 0;
      if t.poll.TimedOut? {
        errors := errors + 1;
        if errors > 10 || t.terminating {
          return Outcome(Failed, offset, i + 1), fd;
        }
      } else if t.poll.PollFailed? {
        return Outcome(Failed, offset, i + 1), fd;
      } else {
        match t.write {
          case WriteFailed => return Outcome(Failed, offset, i + 1), fd;
          case Again => errors := errors + 1;
          case Wrote(n) =>
            nw := if n < |data| - offset then n else |data| - offset;
            fd := fd + data[offset..offset + nw];
            if nw == 0 {
              return Outcome(Done, offset, i + 1), fd;
            }
        }
      }
      offset := offset + nw;
      i := i + 1;
    }
    o := Outcome(if offset < |data| then Running else Done, offset, i);
  }

  function Timeouts(turns: seq<Attempt>): nat {
    if turns == [] then 0 else (if turns[0].poll.TimedOut? then 1 else 0) + Timeouts(turns[1..])
  }

  /** The turn ended the loop by accepting no byte. */
  predicate ZeroWrite(t: Attempt) { t.poll.Ready? && t.write == Wrote(0) }

  /** Success means the whole message, unless the last turn wrote nothing; then
      the rest of the message is lost and success is reported all the same. */
  lemma {:induction false} SuccessIsWhole(size: nat, turns: seq<Attempt>, offset: nat, errors: nat)
    requires offset <= size
    ensures var o := Transfer(size, turns, offset, errors);
            o.result == Done ==> (o.offset == size <==> !(offset < size && o.used > 0 && ZeroWrite(turns[o.used - 1])))
    decreases |turns|
  {
    if offset < size && turns != [] {
      var t := turns[0];
      if t.poll.TimedOut? && !(errors + 1 > 10 || t.terminating) {
        SuccessIsWhole(size, turns[1..], offset, errors + 1);
      } else if t.poll.Ready? && t.write.Again? {
        SuccessIsWhole(size, turns[1..], offset, errors + 1);
      } else if t.poll.Ready? && t.write.Wrote? && t.write.n > 0 {
        SuccessIsWhole(size, turns[1..], offset + Min(t.write.n, size - offset), errors);
      }
    }
  }

  /** The loss is real: two bytes, one of them written, then a write of none. */
  lemma {:induction false} RestLost()
    ensures var turns := [Attempt(Ready, Wrote(1), false), Attempt(Ready, Wrote(0), false)];
            Transfer(2, turns, 0, 0) == Outcome(Done, 1, 2)
  {
    var turns := [Attempt(Ready, Wrote(1), false), Attempt(Ready, Wrote(0), false)];
    assert Transfer(2, turns[1..], 1, 0) == Outcome(Done, 1, 1);
  }

  /** At most eleven timeouts in one call, and the eleventh ends it in failure. */
  lemma {:induction false} TimeoutsBounded(size: nat, turns: seq<Attempt>, offset: nat, errors: nat)
    requires offset <= size
    ensures var o := Transfer(size, turns, offset, errors);
            && (errors <= 10 ==> errors + Timeouts(turns[..o.used]) <= 11)
            && (errors <= 10 && o.result != Failed ==>
                 errors + Timeouts(turns[..o.used]) <= 10 || Timeouts(turns[..o.used]) == 0)
            && (errors > 10 ==> Timeouts(turns[..o.used]) <= 1)
            && (errors > 10 && o.result != Failed ==> Timeouts(turns[..o.used]) == 0)
    decreases |turns|
  {
    var o := Transfer(size, turns, offset, errors);
    if offset < size && turns != [] {
      var t := turns[0];
      var more := if t.poll.TimedOut? || (t.poll.Ready? && t.write.Again?) then errors + 1 else errors;
      var offset' := if t.poll.Ready? && t.write.Wrote? then offset + Min(t.write.n, size - offset) else offset;
      assert turns[..o.used] == [t] + turns[1..][..o.used - 1];
      TimeoutsBounded(size, turns[1..], offset', more);
    }
  }

  /** In terms of one call: eleven timeouts at most, ten if it did not fail. */
  lemma {:induction false} ElevenTimeouts(size: nat, turns: seq<Attempt>)
    ensures var o := Transfer(size, turns, 0, 0);
            Timeouts(turns[..o.used]) <= 11 && (o.result != Failed ==> Timeouts(turns[..o.used]) <= 10)
  {
    TimeoutsBounded(size, turns, 0, 0);
  }

  // ------------------------------------------------------------------
  // One message after the other
  // ------------------------------------------------------------------

  /** What a descriptor has taken, and whether a write to it failed. */
  datatype Descriptor = Descriptor(taken: seq<Byte>, failed: bool)

  /** One message; nothing is tried any more after an error. */
  function TakeUp(d: Descriptor, data: seq<Byte>, turns: seq<Attempt>): Descriptor {
    if d.failed then d
    else
      var o := Transfer(|data|, turns, 0, 0);
      Descriptor(d.taken + data[..o.offset], o.result == Failed)
  }

  /** A message with the answers its call meets. */
  datatype Write = Write(data: seq<Byte>, turns: seq<Attempt>)
  {
    function Out(): Outcome { Transfer(|data|, turns, 0, 0) }
    predicate Fails() { Out().result == Failed }
    /** The call reports success after accepting no byte, with bytes left. */
    predicate EndsInZeroWrite() {
      Out().result == Done && Out().offset < |data| && Out().used > 0 && ZeroWrite(turns[Out().used - 1])
    }
  }

  function TakeAll(d: Descriptor, ws: seq<Write>): Descriptor
    decreases |ws|
  {
    if ws == [] then d else TakeAll(TakeUp(d, ws[0].data, ws[0].turns), ws[1..])
  }

  /** The number of messages before the first one whose call fails. */
  function BeforeError(ws: seq<Write>): (n: nat)
    ensures n <= |ws| && (n < |ws| ==> ws[n].Fails()) && forall k :: 0 <= k < n ==> !ws[k].Fails()
  {
    if ws == [] || ws[0].Fails() then 0 else 1 + BeforeError(ws[1..])
  }

  function DataOf(ws: seq<Write>): seq<seq<Byte>> { seq(|ws|, k requires 0 <= k < |ws| => ws[k].data) }

  /** All data up to the first error: whole messages, and of the failing one what
      was written before the error. */
  function UpToError(ws: seq<Write>): seq<Byte> {
    var n := BeforeError(ws);
    Flatten(DataOf(ws[..n])) + if n < |ws| then ws[n].data[..ws[n].Out().offset] else []
  }

  ghost predicate AllCallsReturn(ws: seq<Write>) {
    forall k :: 0 <= k < |ws| ==> ws[k].Out().result != Running
  }

  lemma {:induction false} UpToErrorStep(ws: seq<Write>)
    requires ws != []
    ensures UpToError(ws) ==
            if ws[0].Fails() then ws[0].data[..ws[0].Out().offset] else ws[0].data + UpToError(ws[1..])
  {
    var n := BeforeError(ws);
    if ws[0].Fails() {
      assert DataOf(ws[..0]) == [];
      var t := ws[0].data[..ws[0].Out().offset];
      assert [] + t == t;
    } else {
      assert DataOf(ws[..n])[1..] == DataOf(ws[1..][..n - 1]);
      var t := if n < |ws| then ws[n].data[..ws[n].Out().offset] else [];
      assert ws[0].data + Flatten(DataOf(ws[1..][..n - 1])) + t == ws[0].data + (Flatten(DataOf(ws[1..][..n - 1])) + t);
    }
  }

  lemma {:induction false} FailedTakesNothing(d: Descriptor, ws: seq<Write>)
    requires d.failed
    ensures TakeAll(d, ws) == d
    decreases |ws|
  {
    if ws != [] {
      FailedTakesNothing(d, ws[1..]);
    }
  }

  /** A call that does not fail gives all of its message or ends in a zero write. */
  lemma {:induction false} CallTakes(w: Write)
    requires w.Out().result == Done
    ensures w.EndsInZeroWrite() <==> w.Out().offset < |w.data|
  {
    SuccessIsWhole(|w.data|, w.turns, 0, 0);
  }

  /** What is taken is never more than what was due, and as much exactly when no
      call ended in a zero write; then it is the same. */
  lemma {:induction false} TakenAgainstDue(d: Descriptor, ws: seq<Write>)
    requires !d.failed && AllCallsReturn(ws)
    ensures var taken := TakeAll(d, ws).taken;
            var clean := forall k :: 0 <= k < BeforeError(ws) ==> !ws[k].EndsInZeroWrite();
            && |taken| <= |d.taken| + |UpToError(ws)|
            && (|taken| == |d.taken| + |UpToError(ws)| <==> clean)
            && (clean ==> taken == d.taken + UpToError(ws))
            && (TakeAll(d, ws).failed <==> BeforeError(ws) < |ws|)
    decreases |ws|
  {
    if ws == [] {
      assert UpToError(ws) == [];
      assert d.taken + [] == d.taken;
    } else {
      UpToErrorStep(ws);
      var w, d' := ws[0], TakeUp(d, ws[0].data, ws[0].turns);
      assert w.Out().result != Running;
      if w.Fails() {
        FailedTakesNothing(d', ws[1..]);
      } else {
        CallTakes(w);
        assert forall k :: 0 <= k < |ws[1..]| ==> ws[1..][k] == ws[k + 1];
        TakenAgainstDue(d', ws[1..]);
        CleanSplits(ws);
        assert d.taken + w.data + UpToError(ws[1..]) == d.taken + (w.data + UpToError(ws[1..]));
        assert w.Out().offset == |w.data| ==> w.data[..w.Out().offset] == w.data;
      }
    }
  }

  lemma {:induction false} CleanSplits(ws: seq<Write>)
    requires ws != [] && !ws[0].Fails()
    ensures (forall k :: 0 <= k < BeforeError(ws) ==> !ws[k].EndsInZeroWrite()) <==>
            !ws[0].EndsInZeroWrite() && forall k :: 0 <= k < BeforeError(ws[1..]) ==> !ws[1..][k].EndsInZeroWrite()
  {
    assert forall k :: 0 <= k < |ws[1..]| ==> ws[1..][k] == ws[k + 1];
    if forall k :: 0 <= k < BeforeError(ws) ==> !ws[k].EndsInZeroWrite() {
      forall k | 0 <= k < BeforeError(ws[1..]) ensures !ws[1..][k].EndsInZeroWrite() {
        assert !ws[k + 1].EndsInZeroWrite();
      }
    } else {
      var k :| 0 <= k < BeforeError(ws) && ws[k].EndsInZeroWrite();
      assert k > 0 ==> ws[1..][k - 1].EndsInZeroWrite();
    }
  }

  /** From a fresh descriptor on: it has taken exactly the data up to the first
      write error if and only if no call before that ended in a zero write. */
  lemma {:induction false} TakenIffNoZeroWrite(ws: seq<Write>)
    requires AllCallsReturn(ws)
    ensures TakeAll(Descriptor([], false), ws).taken == UpToError(ws) <==>
            forall k :: 0 <= k < BeforeError(ws) ==> !ws[k].EndsInZeroWrite()
    ensures TakeAll(Descriptor([], false), ws).failed <==> BeforeError(ws) < |ws|
  {
    TakenAgainstDue(Descriptor([], false), ws);
    assert [] + UpToError(ws) == UpToError(ws);
  }

  // ------------------------------------------------------------------
  // The record file
  // ------------------------------------------------------------------

  /** The record callback's loop: a zero write is tried again, any error ends it. */
  function RecordTransfer(size: nat, answers: seq<WriteAnswer>, offset: nat): (o: Outcome)
    requires offset <= size
    ensures offset <= o.offset <= size && o.used <= |answers|
    ensures o.result == Done <==> o.offset == size && o.result != Failed
    decreases |answers|
  {
    if offset == size then Outcome(Done, offset, 0)
    else if answers == [] then Outcome(Running, offset, 0)
    else if !answers[0].Wrote? then Outcome(Failed, offset, 1)
    else OneMore(RecordTransfer(size, answers[1..], offset + Min(answers[0].n, size - offset)))
  }

  method WriteRecord(data: seq<Byte>, answers: seq<WriteAnswer>) returns (o: Outcome, written: seq<Byte>)
    ensures o == RecordTransfer(|data|, answers, 0)
    ensures written == data[..o.offset]
  {
    var offset, i := 0, 0;
    written := [];
    assert answers[0..] == answers;
    while offset < |data| && i < |answers|
      invariant 0 <= offset <= |data| && 0 <= i <= |answers|
      invariant written == data[..offset]
      invariant var rest := RecordTransfer(|data|, answers[i..], offset);
                RecordTransfer(|data|, answers, 0) == rest.(used := rest.used + i)
      decreases |answers| - i
    {
      assert answers[i..][1..] == answers[i + 1..];
      if !answers[i].Wrote? {
        return Outcome(Failed, offset, i + 1), written;
      }
      var nw := if answers[i].n < |data| - offset then answers[i].n else |data| - offset;
      written := written + data[offset..offset + nw];
      offset := offset + nw;
      i := i + 1;
    }
    o := Outcome(if offset < |data| then Running else Done, offset, i);
  }
}
