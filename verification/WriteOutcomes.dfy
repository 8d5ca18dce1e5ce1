/** Exactly how the write loops end, in terms of the answers they meet. */
module WriteOutcomes {
  import opened Bytes
  import opened WriteLoops

  // ------------------------------------------------------------------
  // The loop to a descriptor
  // ------------------------------------------------------------------

  /** The bytes a turn accepts, and all turns together. */
  function AcceptedBy(t: Attempt): nat { if t.poll.Ready? && t.write.Wrote? then t.write.n else 0 }

  function AcceptedIn(turns: seq<Attempt>): nat {
    if turns == [] then 0 else AcceptedBy(turns[0]) + AcceptedIn(turns[1..])
  }

  predicate IsHiccup(t: Attempt) { t.poll.TimedOut? || (t.poll.Ready? && t.write.Again?) }

  /** Timeouts and EAGAINs. */
  function Hiccups(turns: seq<Attempt>): nat {
    if turns == [] then 0 else (if IsHiccup(turns[0]) then 1 else 0) + Hiccups(turns[1..])
  }

  /** Turn k is a poll error, a write error, or a timeout that is terminating or has
      ten hiccups before it. */
  predicate Fatal(turns: seq<Attempt>, k: nat, before: nat)
    requires k < |turns|
  {
    var t := turns[k];
    || t.poll.PollFailed?
    || (t.poll.Ready? && t.write.WriteFailed?)
    || (t.poll.TimedOut? && (t.terminating || before + Hiccups(turns[..k]) >= 10))
  }

  /** Turn k is met with bytes left, and no turn before it wrote nothing. */
  predicate Met(size: nat, turns: seq<Attempt>, offset: nat, k: nat)
    requires k <= |turns|
  {
    offset + AcceptedIn(turns[..k]) < size && forall i :: 0 <= i < k ==> !ZeroWrite(turns[i])
  }

  ghost predicate FatalMet(size: nat, turns: seq<Attempt>, offset: nat, errors: nat) {
    exists k :: 0 <= k < |turns| && Fatal(turns, k, errors) && Met(size, turns, offset, k)
  }

  lemma {:induction false} PrefixStep(turns: seq<Attempt>, k: nat)
    requires 0 < k <= |turns|
    ensures turns[..k][0] == turns[0] && turns[..k][1..] == turns[1..][..k - 1]
    ensures AcceptedIn(turns[..k]) == AcceptedBy(turns[0]) + AcceptedIn(turns[1..][..k - 1])
    ensures Hiccups(turns[..k]) == Hiccups(turns[..1]) + Hiccups(turns[1..][..k - 1])
  {
    assert turns[..1][1..] == [];
    assert Hiccups([]) == 0;
  }

  lemma {:induction false} MetStep(size: nat, turns: seq<Attempt>, offset: nat, errors: nat, k: nat)
    requires 0 < k < |turns|
    ensures Met(size, turns, offset, k) <==>
            !ZeroWrite(turns[0]) && Met(size, turns[1..], offset + AcceptedBy(turns[0]), k - 1)
    ensures Fatal(turns, k, errors) <==> Fatal(turns[1..], k - 1, errors + Hiccups(turns[..1]))
  {
    PrefixStep(turns, k);
    if !ZeroWrite(turns[0]) && Met(size, turns[1..], offset + AcceptedBy(turns[0]), k - 1) {
      forall i | 0 <= i < k ensures !ZeroWrite(turns[i]) {
        assert i > 0 ==> turns[i] == turns[1..][i - 1];
      }
    }
    if Met(size, turns, offset, k) {
      forall i | 0 <= i < k - 1 ensures !ZeroWrite(turns[1..][i]) {
        assert turns[1..][i] == turns[i + 1];
      }
    }
  }

  lemma {:induction false} FatalStep(size: nat, turns: seq<Attempt>, offset: nat, errors: nat)
    requires turns != [] && offset < size
    ensures FatalMet(size, turns, offset, errors) <==>
            Fatal(turns, 0, errors) ||
            (!ZeroWrite(turns[0])
                && FatalMet(size, turns[1..], offset + AcceptedBy(turns[0]), errors + Hiccups(turns[..1])))
  {
    var offset', errors' := offset + AcceptedBy(turns[0]), errors + Hiccups(turns[..1]);
    if Fatal(turns, 0, errors) {
      assert turns[..0] == [] && Met(size, turns, offset, 0);
    }
    if !ZeroWrite(turns[0]) && FatalMet(size, turns[1..], offset', errors') {
      var k :| 0 <= k < |turns[1..]| && Fatal(turns[1..], k, errors') && Met(size, turns[1..], offset', k);
      MetStep(size, turns, offset, errors, k + 1);
    }
    if FatalMet(size, turns, offset, errors) && !Fatal(turns, 0, errors) {
      var k :| 0 <= k < |turns| && Fatal(turns, k, errors) && Met(size, turns, offset, k);
      MetStep(size, turns, offset, errors, k);
    }
  }

  lemma {:induction false} HiccupsOne(turns: seq<Attempt>)
    requires turns != []
    ensures Hiccups(turns[..1]) == if IsHiccup(turns[0]) then 1 else 0
  {
    assert turns[..1][1..] == [];
  }

  lemma {:induction false} EnoughNotMet(size: nat, turns: seq<Attempt>, offset: nat, errors: nat)
    requires offset >= size
    ensures !FatalMet(size, turns, offset, errors)
  {
  }

  /** More is offered than is left, or not: the loop goes on with the rest. */
  lemma {:induction false} TransferStep(size: nat, turns: seq<Attempt>, offset: nat, errors: nat)
    requires offset < size && turns != [] && !Fatal(turns, 0, errors) && !ZeroWrite(turns[0])
    ensures Transfer(size, turns, offset, errors) ==
            OneMore(Transfer(size, turns[1..], Min(size, offset + AcceptedBy(turns[0])), errors + Hiccups(turns[..1])))
  {
    HiccupsOne(turns);
    assert turns[..0] == [];
  }

  lemma {:induction false} FailsIffFrom(size: nat, turns: seq<Attempt>, offset: nat, errors: nat)
    requires offset <= size
    ensures Transfer(size, turns, offset, errors).result == Failed <==> FatalMet(size, turns, offset, errors)
    decreases |turns|
  {
    if offset == size {
      EnoughNotMet(size, turns, offset, errors);
    } else if turns != [] {
      FatalStep(size, turns, offset, errors);
      HiccupsOne(turns);
      assert turns[..0] == [];
      if !Fatal(turns, 0, errors) && !ZeroWrite(turns[0]) {
        var offset', errors' := offset + AcceptedBy(turns[0]), errors + Hiccups(turns[..1]);
        TransferStep(size, turns, offset, errors);
        FailsIffFrom(size, turns[1..], Min(size, offset'), errors');
        if offset' > size {
          EnoughNotMet(size, turns[1..], size, errors');
          EnoughNotMet(size, turns[1..], offset', errors');
        }
      }
    }
  }

  /** A call fails if and only if some turn that is met with bytes left, and with no
      zero write before it, is a poll error, a write error, or a timeout that is
      terminating or has ten timeouts or EAGAINs before it. */
  lemma {:induction false} FailsIff(size: nat, turns: seq<Attempt>)
    ensures Transfer(size, turns, 0, 0).result == Failed <==>
            exists k :: 0 <= k < |turns| && Fatal(turns, k, 0) && Met(size, turns, 0, k)
  {
    FailsIffFrom(size, turns, 0, 0);
  }

  /** What is accepted is what the turns up to the end accept, as far as there is. */
  lemma {:induction false} OffsetIsAccepted(size: nat, turns: seq<Attempt>, offset: nat, errors: nat)
    requires offset <= size
    ensures var o := Transfer(size, turns, offset, errors); o.offset == Min(size, offset + AcceptedIn(turns[..o.used]))
    decreases |turns|
  {
    var o := Transfer(size, turns, offset, errors);
    if offset == size || turns == [] {
      assert turns[..0] == [];
    } else {
      HiccupsOne(turns);
      assert turns[..0] == [];
      PrefixStep(turns, o.used);
      assert turns[1..][..0] == [];
      if !Fatal(turns, 0, errors) && !ZeroWrite(turns[0]) {
        var offset' := Min(size, offset + AcceptedBy(turns[0]));
        TransferStep(size, turns, offset, errors);
        OffsetIsAccepted(size, turns[1..], offset', errors + Hiccups(turns[..1]));
      }
    }
  }

  /** A call that has not failed is done if and only if the turns accept enough, or
      one of them, met with bytes left, wrote nothing. */
  lemma {:induction false} DoneIffFrom(size: nat, turns: seq<Attempt>, offset: nat, errors: nat)
    requires offset <= size && Transfer(size, turns, offset, errors).result != Failed
    ensures Transfer(size, turns, offset, errors).result == Done <==>
            offset + AcceptedIn(turns) >= size || exists k :: 0 <= k < |turns| && ZeroWrite(turns[k])
    decreases |turns|
  {
    if offset < size && turns != [] {
      HiccupsOne(turns);
      assert turns[..0] == [];
      if !ZeroWrite(turns[0]) {
        assert !Fatal(turns, 0, errors);
        TransferStep(size, turns, offset, errors);
        var offset' := Min(size, offset + AcceptedBy(turns[0]));
        DoneIffFrom(size, turns[1..], offset', errors + Hiccups(turns[..1]));
        assert forall k :: 0 < k < |turns| ==> turns[k] == turns[1..][k - 1];
        if k :| 0 <= k < |turns| && ZeroWrite(turns[k]) {
          assert ZeroWrite(turns[1..][k - 1]);
        }
      }
    }
  }

  lemma {:induction false} DoneIff(size: nat, turns: seq<Attempt>)
    requires Transfer(size, turns, 0, 0).result != Failed
    ensures Transfer(size, turns, 0, 0).result == Done <==>
            AcceptedIn(turns) >= size || exists k :: 0 <= k < |turns| && ZeroWrite(turns[k])
  {
    DoneIffFrom(size, turns, 0, 0);
  }

  function Stalls(n: nat): seq<Attempt> { if n == 0 then [] else [Attempt(TimedOut, Again, false)] + Stalls(n - 1) }

  lemma {:induction false} StallsPass(size: nat, n: nat, errors: nat, rest: seq<Attempt>)
    requires errors + n <= 10 && size > 0
    ensures var o, after := Transfer(size, Stalls(n) + rest, 0, errors), Transfer(size, rest, 0, errors + n);
            o.result == after.result && o.offset == after.offset
    decreases n
  {
    if n == 0 {
      assert [] + rest == rest;
    } else {
      assert (Stalls(n) + rest)[1..] == Stalls(n - 1) + rest;
      StallsPass(size, n - 1, errors + 1, rest);
    }
  }

  /** Ten timeouts and then a full write: the whole message. */
  lemma {:induction false} TenTimeoutsAreTolerated(size: nat, n: nat)
    requires size > 0 && n <= 10
    ensures var o := Transfer(size, Stalls(n) + [Attempt(Ready, Wrote(size), false)], 0, 0);
            o.result == Done && o.offset == size
  {
    var last := [Attempt(Ready, Wrote(size), false)];
    StallsPass(size, n, 0, last);
    assert last[1..] == [];
  }

  // ------------------------------------------------------------------
  // The loop to the record file
  // ------------------------------------------------------------------

  function WrittenIn(answers: seq<WriteAnswer>): nat {
    if answers == [] then 0 else (if answers[0].Wrote? then answers[0].n else 0) + WrittenIn(answers[1..])
  }

  ghost predicate ErrorMet(size: nat, answers: seq<WriteAnswer>, offset: nat) {
    exists k :: 0 <= k < |answers| && !answers[k].Wrote? && offset + WrittenIn(answers[..k]) < size
  }

  lemma {:induction false} ErrorStep(size: nat, answers: seq<WriteAnswer>, offset: nat)
    requires answers != [] && answers[0].Wrote?
    ensures ErrorMet(size, answers, offset) <==> ErrorMet(size, answers[1..], offset + answers[0].n)
  {
    forall k | 0 < k <= |answers| ensures WrittenIn(answers[..k]) == answers[0].n + WrittenIn(answers[1..][..k - 1]) {
      assert answers[..k][1..] == answers[1..][..k - 1];
    }
    if ErrorMet(size, answers, offset) {
      var k :| 0 <= k < |answers| && !answers[k].Wrote? && offset + WrittenIn(answers[..k]) < size;
      assert !answers[1..][k - 1].Wrote?;
    }
    if ErrorMet(size, answers[1..], offset + answers[0].n) {
      var k :| 0 <= k < |answers[1..]| && !answers[1..][k].Wrote?
          && offset + answers[0].n + WrittenIn(answers[1..][..k]) < size;
      assert !answers[k + 1].Wrote?;
    }
  }

  /** The record file's loop fails if and only if an error is met with bytes left, and
      is done if and only if enough is written before any; a zero write is tried
      again. */
  lemma {:induction false} RecordEndsIff(size: nat, answers: seq<WriteAnswer>, offset: nat)
    requires offset <= size
    ensures var o := RecordTransfer(size, answers, offset);
            && (o.result == Failed <==> ErrorMet(size, answers, offset))
            && (o.result != Failed ==> (o.result == Done <==> offset + WrittenIn(answers) >= size))
            && o.offset == Min(size, offset + WrittenIn(answers[..o.used]))
    decreases |answers|
  {
    var o := RecordTransfer(size, answers, offset);
    assert answers[..0] == [];
    if offset < size && answers != [] {
      if answers[0].Wrote? {
        ErrorStep(size, answers, offset);
        var offset' := Min(size, offset + answers[0].n);
        RecordEndsIff(size, answers[1..], offset');
        assert answers[..o.used][1..] == answers[1..][..o.used - 1];
        assert ErrorMet(size, answers[1..], offset') <==> ErrorMet(size, answers[1..], offset + answers[0].n);
      } else {
        assert WrittenIn(answers[..0]) == 0 && !answers[0].Wrote?;
        assert answers[..1][1..] == [];
      }
    }
  }
}
