/** Theorems about whole runs of the reader system. */
module ReaderRuns {
  import opened Bytes
  import opened TsFormat
  import opened PidTable
  import opened Packetiser
  import opened ReadTs
  import opened ListenerState
  import opened ReaderSystem
  import opened ReaderSafety

  lemma {:induction false} StepsAppend(s: Sys, a: seq<Event>, b: seq<Event>)
    ensures Steps(s, a + b) == Steps(Steps(s, a), b)
    decreases |a|
  {
    if a == [] {
      assert a + b == b;
    } else {
      assert (a + b)[1..] == a[1..] + b;
      StepsAppend(Step(s, a[0]), a[1..], b);
    }
  }

  /** Every reachable state satisfies the invariant. */
  lemma {:induction false} Reachable(es: seq<Event>)
    ensures Inv(Steps(NEW_SYS, es))
  {
    EveryRun(NEW_SYS, es);
  }

  /** In every reachable state every listener's stream data, taken, queued and
      batched, is what it should be, and its messages are batches of 21 packets. */
  lemma {:induction false} StreamConserved(es: seq<Event>, id: nat)
    requires id in Steps(NEW_SYS, es).nodes
    ensures var n := Steps(NEW_SYS, es).nodes[id];
            && BytesFrom(n.popped, FromStream) + BytesFrom(n.l.queue, FromStream) + n.l.buffer
               == n.base + WantedBytes(n.l.filter, n.arrived)
            && |n.l.buffer| % TS_SIZE == 0 && |n.l.buffer| <= 20 * TS_SIZE
            && forall m :: m in n.popped + n.l.queue && m.Data? ==>
                 |m.bytes| <= BUFFER_SIZE && (m.origin == FromStream ==> |m.bytes| == 21 * TS_SIZE)
  {
    Reachable(es);
    var n := Steps(NEW_SYS, es).nodes[id];
    BytesAppend(n.popped, n.l.queue, FromStream);
  }

  // ------------------------------------------------------------------
  // One registration epoch
  // ------------------------------------------------------------------

  /** Every event happens when the thread it belongs to can take it. */
  predicate Legal(s: Sys, es: seq<Event>)
    decreases |es|
  {
    es == [] || (Enabled(s, es[0]) && Legal(Step(s, es[0]), es[1..]))
  }

  function PacketsOf(es: seq<Event>): seq<seq<Byte>> {
    if es == [] then [] else (if es[0].Packet? then [es[0].packet] else []) + PacketsOf(es[1..])
  }

  /** The packet of an event with its PID kinds, in the state it arrives in. */
  function ArrivalOf(s: Sys, e: Event): seq<Arrival> {
    if e.Packet? && Enabled(s, e) then [Arrival(e.packet, Lookup(s.core.pids.active, GetPid(e.packet)))] else []
  }

  function ArrivalsOf(s: Sys, es: seq<Event>): seq<Arrival>
    decreases |es|
  {
    if es == [] then [] else ArrivalOf(s, es[0]) + ArrivalsOf(Step(s, es[0]), es[1..])
  }

  predicate Interrupts(e: Event, id: nat) {
    e.Reset? || (e.For? && e.id == id && (e.action.SetListener? || e.action.Unlink?))
  }

  predicate SameEpoch(es: seq<Event>, id: nat) {
    forall i :: 0 <= i < |es| ==> !Interrupts(es[i], id)
  }

  /** n' continues the epoch of n after some more packets were offered. */
  ghost predicate Continues(n: Node, n': Node, more: seq<Arrival>) {
    n'.attached && n'.base == n.base && n'.l.filter == n.l.filter && n'.arrived == n.arrived + more
  }

  lemma {:induction false} SharedContinues(s: Sys, e: Event, n: Node)
    requires Enabled(s, e) && !e.For? && !e.Reset? && n.attached
    ensures Continues(n, Shared(s.core, e, n), ArrivalOf(s, e))
  {
  }

  lemma {:induction false} PrivateContinues(s: Sys, a: Action, n: Node)
    requires NodeInv(n) && CanAct(n, a) && !a.SetListener? && !a.Unlink? && n.attached
    ensures Continues(n, Private(s.core, a, n), [])
  {
    if a.Handle? {
      ProcessEffect(n.l, n.hand.value, a.writeFails);
    }
  }

  lemma {:induction false} StepContinues(s: Sys, e: Event, id: nat)
    requires Inv(s) && id in s.nodes && s.nodes[id].attached && !Interrupts(e, id)
    ensures id in Step(s, e).nodes && Continues(s.nodes[id], Step(s, e).nodes[id], ArrivalOf(s, e))
  {
    var n := s.nodes[id];
    if Enabled(s, e) {
      if !e.For? {
        SharedContinues(s, e, n);
      } else if e.id == id {
        PrivateContinues(s, e.action, n);
      }
    }
  }

  lemma {:induction false} ContinuesFurther(a: Node, b: Node, c: Node, first: seq<Arrival>, second: seq<Arrival>)
    requires Continues(a, b, first) && Continues(b, c, second)
    ensures Continues(a, c, first + second)
  {
    assert a.arrived + (first + second) == (a.arrived + first) + second;
  }

  /** Within an epoch a listener is offered exactly the packets that arrive. */
  lemma {:induction false} StaysInEpoch(s: Sys, es: seq<Event>, id: nat)
    requires Inv(s) && id in s.nodes && s.nodes[id].attached && SameEpoch(es, id)
    ensures id in Steps(s, es).nodes && Continues(s.nodes[id], Steps(s, es).nodes[id], ArrivalsOf(s, es))
    decreases |es|
  {
    if es != [] {
      var t := Step(s, es[0]);
      StepContinues(s, es[0], id);
      StepKeeps(s, es[0]);
      StaysInEpoch(t, es[1..], id);
      ContinuesFurther(s.nodes[id], t.nodes[id], Steps(t, es[1..]).nodes[id], ArrivalOf(s, es[0]),
          ArrivalsOf(t, es[1..]));
    }
  }

  lemma {:induction false} ArrivalPackets(s: Sys, es: seq<Event>)
    requires Legal(s, es)
    ensures |ArrivalsOf(s, es)| == |PacketsOf(es)|
    ensures forall i :: 0 <= i < |PacketsOf(es)| ==> ArrivalsOf(s, es)[i].packet == PacketsOf(es)[i]
    decreases |es|
  {
    if es != [] {
      ArrivalPackets(Step(s, es[0]), es[1..]);
    }
  }

  lemma {:induction false} LegalAppend(s: Sys, a: seq<Event>, b: seq<Event>)
    requires Legal(s, a + b)
    ensures Legal(s, a) && Legal(Steps(s, a), b)
    decreases |a|
  {
    if a == [] {
      assert a + b == b;
    } else {
      assert (a + b)[1..] == a[1..] + b;
      LegalAppend(Step(s, a[0]), a[1..], b);
    }
  }

  /** Registering starts an epoch with nothing carried over. */
  lemma {:induction false} RegistrationStartsEpoch(s: Sys, id: nat, filter: FilterType)
    requires Enabled(s, For(id, SetListener(filter)))
    ensures var t := Step(s, For(id, SetListener(filter)));
            && id in t.nodes && t.nodes[id].attached && t.nodes[id].base == [] && t.nodes[id].arrived == []
            && t.nodes[id].popped == [] && t.nodes[id].l.filter == filter
            && InHand(t.nodes[id]) == if id in s.nodes then InHand(s.nodes[id]) else []
  {
  }

  // ------------------------------------------------------------------
  // What the worker hands over
  // ------------------------------------------------------------------

  /** The message the worker has taken and not handled yet. */
  function InHand(n: Node): seq<Message> { if n.hand.Some? then [n.hand.value] else [] }

  /** The messages an event hands over, and those a run does. */
  function HandledBy(s: Sys, e: Event, id: nat): seq<Message> {
    if e.For? && e.id == id && e.action.Handle? && id in s.nodes then InHand(s.nodes[id]) else []
  }

  function HandledOf(s: Sys, es: seq<Event>, id: nat): seq<Message>
    decreases |es|
  {
    if es == [] then [] else HandledBy(s, es[0], id) + HandledOf(Step(s, es[0]), es[1..], id)
  }

  /** From n to n' these messages were handed over: first the one held at n, then
      those taken since, up to the one held at n'. */
  ghost predicate HandsOn(n: Node, n': Node, handled: seq<Message>) {
    && |n.popped| <= |n'.popped| && n'.popped[..|n.popped|] == n.popped
    && handled + InHand(n') == InHand(n) + n'.popped[|n.popped|..]
  }

  /** A listener that was taken off the list is not reset. */
  lemma {:induction false} StepHandsOn(s: Sys, e: Event, id: nat)
    requires id in s.nodes && (!Interrupts(e, id) || !s.nodes[id].attached || e == For(id, Unlink))
    ensures id in Step(s, e).nodes && HandsOn(s.nodes[id], Step(s, e).nodes[id], HandledBy(s, e, id))
  {
    var n, n' := s.nodes[id], Step(s, e).nodes[id];
    if e == For(id, Pop) && Enabled(s, e) {
      assert n'.popped[|n.popped|..] == [n.l.queue[0]];
    } else {
      assert n'.popped == n.popped;
    }
  }

  lemma {:induction false} Chain<T>(first: seq<T>, hb: seq<T>, ha: seq<T>, p: seq<T>, second: seq<T>, hc: seq<T>,
      q: seq<T>)
    requires first + hb == ha + p && second + hc == hb + q
    ensures (first + second) + hc == ha + (p + q)
  {
    assert (first + second) + hc == first + (second + hc);
    assert first + (hb + q) == (first + hb) + q;
    assert (ha + p) + q == ha + (p + q);
  }

  lemma {:induction false} HandsOnFurther(a: Node, b: Node, c: Node, first: seq<Message>, second: seq<Message>)
    requires HandsOn(a, b, first) && HandsOn(b, c, second)
    ensures HandsOn(a, c, first + second)
  {
    var p, q := b.popped[|a.popped|..], c.popped[|b.popped|..];
    assert c.popped == b.popped + q;
    assert c.popped[|a.popped|..] == p + q;
    Chain(first, InHand(b), InHand(a), p, second, InHand(c), q);
  }

  lemma {:induction false} HandsOnFirst(n: Node)
    ensures HandsOn(n, n, [])
  {
  }

  /** Within an epoch. */
  lemma {:induction false} HandedInEpoch(s: Sys, es: seq<Event>, id: nat)
    requires Inv(s) && id in s.nodes && s.nodes[id].attached && SameEpoch(es, id)
    ensures id in Steps(s, es).nodes && HandsOn(s.nodes[id], Steps(s, es).nodes[id], HandledOf(s, es, id))
    decreases |es|
  {
    if es == [] {
      HandsOnFirst(s.nodes[id]);
    } else {
      var t := Step(s, es[0]);
      StepHandsOn(s, es[0], id);
      StepContinues(s, es[0], id);
      StepKeeps(s, es[0]);
      HandedInEpoch(t, es[1..], id);
      HandsOnFurther(s.nodes[id], t.nodes[id], Steps(t, es[1..]).nodes[id], HandledBy(s, es[0], id),
          HandledOf(t, es[1..], id));
    }
  }

  lemma {:induction false} Swap<T>(handed: seq<T>, hand: seq<T>, held: seq<T>, popped: seq<T>, rest: seq<T>,
      whole: seq<T>)
    requires handed + hand == held + popped && popped + rest == whole
    ensures handed + hand + rest == held + whole
  {
    assert held + popped + rest == held + (popped + rest);
  }

  /** Bytes of one origin: handed over, in hand and waiting are what was held when
      the epoch began, then what belongs to the epoch. */
  lemma {:induction false} HandedBytes(n0: Node, n: Node, handed: seq<Message>, origin: Origin, rest: seq<Byte>,
      whole: seq<Byte>)
    requires HandsOn(n0, n, handed) && n0.popped == [] && BytesFrom(n.popped, origin) + rest == whole
    ensures BytesFrom(handed, origin) + BytesFrom(InHand(n), origin) + rest == BytesFrom(InHand(n0), origin) + whole
  {
    assert n.popped[0..] == n.popped;
    BytesAppend(handed, InHand(n), origin);
    BytesAppend(InHand(n0), n.popped, origin);
    Swap(BytesFrom(handed, origin), BytesFrom(InHand(n), origin), BytesFrom(InHand(n0), origin),
        BytesFrom(n.popped, origin), rest, whole);
  }

  /** The stream bytes a listener still has to hand over, in order. */
  function Remaining(n: Node): seq<Byte> {
    BytesFrom(InHand(n), FromStream) + BytesFrom(n.l.queue, FromStream) + n.l.buffer
  }

  lemma {:induction false} HandedAndRemaining(n0: Node, n: Node, handed: seq<Message>, whole: seq<Byte>)
    requires HandsOn(n0, n, handed) && n0.popped == []
    requires BytesFrom(n.popped, FromStream) + BytesFrom(n.l.queue, FromStream) + n.l.buffer == whole
    ensures BytesFrom(handed, FromStream) + Remaining(n) == BytesFrom(InHand(n0), FromStream) + whole
  {
    var q, b := BytesFrom(n.l.queue, FromStream), n.l.buffer;
    Associates(BytesFrom(n.popped, FromStream), q, b);
    HandedBytes(n0, n, handed, FromStream, q + b, whole);
    Together(BytesFrom(handed, FromStream), BytesFrom(InHand(n), FromStream), q, b);
  }

  lemma {:induction false} Associates<T>(p: seq<T>, q: seq<T>, b: seq<T>)
    ensures p + (q + b) == p + q + b
  {
  }

  lemma {:induction false} Together<T>(h: seq<T>, i: seq<T>, q: seq<T>, b: seq<T>)
    ensures h + (i + q + b) == h + i + (q + b)
  {
  }

  /** What a listener is handed in a run, and what remains. */
  function StreamOut(s: Sys, es: seq<Event>, id: nat): seq<Byte> {
    var t := Steps(s, es);
    BytesFrom(HandledOf(s, es, id), FromStream) + if id in t.nodes then Remaining(t.nodes[id]) else []
  }

  /** The stream bytes the worker of a listener holds. */
  function Held(s: Sys, id: nat): seq<Byte> {
    if id in s.nodes then BytesFrom(InHand(s.nodes[id]), FromStream) else []
  }

  /** From the start of an epoch on: what is handed over and what remains are what
      the worker held, what the batch buffer held, and the wanted packets. */
  lemma {:induction false} EpochHandedOver(s: Sys, id: nat, es: seq<Event>)
    requires Inv(s) && id in s.nodes && s.nodes[id].attached && SameEpoch(es, id)
    requires s.nodes[id].arrived == [] && s.nodes[id].popped == []
    ensures StreamOut(s, es, id) ==
            Held(s, id) + (s.nodes[id].base + WantedBytes(s.nodes[id].l.filter, ArrivalsOf(s, es)))
  {
    HandedInEpoch(s, es, id);
    EpochConserved(s, id, es);
    var n0 := s.nodes[id];
    HandedAndRemaining(n0, Steps(s, es).nodes[id], HandledOf(s, es, id),
        n0.base + WantedBytes(n0.l.filter, ArrivalsOf(s, es)));
  }

  /** The tables handed over in an epoch: the one the worker held when it began,
      then the PAT and the PMT of the epoch, each at most once. */
  lemma {:induction false} EpochTablesHandedOver(s: Sys, id: nat, es: seq<Event>)
    requires Inv(s) && id in s.nodes && s.nodes[id].attached && SameEpoch(es, id) && s.nodes[id].popped == []
    ensures var t := Steps(s, es);
            && id in t.nodes
            && var n := t.nodes[id];
            && BytesFrom(HandledOf(s, es, id), FromTable) + BytesFrom(InHand(n), FromTable)
                 + BytesFrom(n.l.queue, FromTable)
               == BytesFrom(InHand(s.nodes[id]), FromTable)
                  + ((if n.l.havePat then t.core.pat.data else []) + (if n.l.havePmt then t.core.pmt.data else []))
            && (n.l.havePmt ==> n.l.havePat)
  {
    HandedInEpoch(s, es, id);
    EveryRun(s, es);
    StaysInEpoch(s, es, id);
    var n := Steps(s, es).nodes[id];
    BytesAppend(n.popped, n.l.queue, FromTable);
    HandedBytes(s.nodes[id], n, HandledOf(s, es, id), FromTable, BytesFrom(n.l.queue, FromTable),
        BytesFrom(History(n), FromTable));
  }

  /** End to end: a stream of aligned packets is read in any chunks, and a
      listener registers somewhere in the middle (after es1). Whatever the threads
      do after that (es2), what its worker hands over and what remains are, in
      order and without loss or repeat, what the worker held at the registration
      and then the packets from there on whose PID kinds at arrival meet the
      filter; and only those exactly when the worker held no stream data. */
  lemma {:induction false} EndToEnd(chunks: seq<seq<Byte>>, es1: seq<Event>, id: nat, filter: FilterType,
      es2: seq<Event>)
    requires Legal(NEW_SYS, es1 + ([For(id, SetListener(filter))] + es2)) && SameEpoch(es2, id)
    requires Aligned(Flatten(chunks))
    requires PacketsOf(es1) + PacketsOf(es2) == PushAll(AcceptAll(), NEW_FRAMER, chunks).delivered
    ensures var s0 := Steps(NEW_SYS, es1);
            var s := Step(s0, For(id, SetListener(filter)));
            var arrivals, first, stream := ArrivalsOf(s, es2), |PacketsOf(es1)|, Frames(Flatten(chunks));
            && StreamOut(s, es2, id) == Held(s0, id) + WantedBytes(filter, arrivals)
            && (StreamOut(s, es2, id) == WantedBytes(filter, arrivals) <==> Held(s0, id) == [])
            && first + |arrivals| == |stream|
            && forall i :: 0 <= i < |arrivals| ==> arrivals[i].packet == stream[first + i]
  {
    var s := EpochOf(es1, id, filter, es2);
    ArrivalPackets(s, es2);
    assert [] + Flatten(chunks) == Flatten(chunks);
    ChunkingIndependent(NEW_FRAMER, [], chunks);
    RegistrationHandedOver(Steps(NEW_SYS, es1), id, filter, es2);
  }

  lemma {:induction false} RegistrationHandedOver(s0: Sys, id: nat, filter: FilterType, es: seq<Event>)
    requires Inv(s0) && Enabled(s0, For(id, SetListener(filter))) && SameEpoch(es, id)
    ensures var s := Step(s0, For(id, SetListener(filter)));
            var wanted := WantedBytes(filter, ArrivalsOf(s, es));
            StreamOut(s, es, id) == Held(s0, id) + wanted && (StreamOut(s, es, id) == wanted <==> Held(s0, id) == [])
  {
    var reg := For(id, SetListener(filter));
    var s := Step(s0, reg);
    StepKeeps(s0, reg);
    RegistrationStartsEpoch(s0, id, filter);
    assert Held(s, id) == Held(s0, id) && s.nodes[id].base == [];
    var wanted := WantedBytes(filter, ArrivalsOf(s, es));
    assert StreamOut(s, es, id) == Held(s0, id) + ([] + wanted) by {
      EpochHandedOver(s, id, es);
    }
    assert [] + wanted == wanted;
    NothingInFront(Held(s0, id), wanted);
  }

  lemma {:induction false} EpochOf(es1: seq<Event>, id: nat, filter: FilterType, es2: seq<Event>) returns (s: Sys)
    requires Legal(NEW_SYS, es1 + ([For(id, SetListener(filter))] + es2))
    ensures Inv(Steps(NEW_SYS, es1)) && Enabled(Steps(NEW_SYS, es1), For(id, SetListener(filter)))
    ensures s == Step(Steps(NEW_SYS, es1), For(id, SetListener(filter))) && Inv(s) && Legal(s, es2)
    ensures id in s.nodes && s.nodes[id].attached && s.nodes[id].base == [] && s.nodes[id].arrived == []
    ensures s.nodes[id].l.filter == filter
  {
    var reg := For(id, SetListener(filter));
    LegalAppend(NEW_SYS, es1, [reg] + es2);
    assert ([reg] + es2)[1..] == es2;
    Reachable(es1);
    RegistrationStartsEpoch(Steps(NEW_SYS, es1), id, filter);
    StepKeeps(Steps(NEW_SYS, es1), reg);
    s := Step(Steps(NEW_SYS, es1), reg);
  }

  lemma {:induction false} EpochConserved(s: Sys, id: nat, es: seq<Event>)
    requires Inv(s) && id in s.nodes && s.nodes[id].attached && SameEpoch(es, id)
    requires s.nodes[id].arrived == []
    ensures id in Steps(s, es).nodes
    ensures var n := Steps(s, es).nodes[id];
            BytesFrom(n.popped, FromStream) + BytesFrom(n.l.queue, FromStream) + n.l.buffer
            == s.nodes[id].base + WantedBytes(s.nodes[id].l.filter, ArrivalsOf(s, es))
  {
    StaysInEpoch(s, es, id);
    EveryRun(s, es);
    var n := Steps(s, es).nodes[id];
    BytesAppend(n.popped, n.l.queue, FromStream);
    assert [] + ArrivalsOf(s, es) == ArrivalsOf(s, es);
  }

  /** A retune clears the queue, but reaches neither the message a worker holds nor
      the batch buffer: what a listener is handed afterwards starts with their
      stream bytes, and is free of the old stream exactly when both were without. */
  lemma {:induction false} RetuneCarriesOver(s: Sys, id: nat, es: seq<Event>)
    requires Inv(s) && Enabled(s, Reset) && id in s.nodes && s.nodes[id].attached && SameEpoch(es, id)
    ensures var t := Step(s, Reset);
            var held, left := Held(s, id), s.nodes[id].l.buffer;
            var wanted := WantedBytes(s.nodes[id].l.filter, ArrivalsOf(t, es));
            StreamOut(t, es, id) == held + (left + wanted)
                && (StreamOut(t, es, id) == wanted <==> held == [] && left == [])
  {
    var t := Step(s, Reset);
    ResetStartsEpoch(s, id);
    EpochHandedOver(t, id, es);
    TwoInFront(Held(s, id), s.nodes[id].l.buffer, WantedBytes(s.nodes[id].l.filter, ArrivalsOf(t, es)));
  }

  lemma {:induction false} TwoInFront<T>(a: seq<T>, b: seq<T>, c: seq<T>)
    ensures a + (b + c) == c <==> a == [] && b == []
  {
    assert a + (b + c) == (a + b) + c;
    NothingInFront(a + b, c);
  }

  /** Old packets are really carried over: register, get one packet, retune. */
  lemma {:induction false} OldPacketCarriedOver(p: TsPacket)
    ensures var t := Steps(NEW_SYS, [For(0, SetListener({Other})), Packet(p), Reset]);
            0 in t.nodes && t.nodes[0].l.queue == [] && t.nodes[0].arrived == [] && t.nodes[0].l.buffer == p && |p| > 0
  {
    var s1 := Step(NEW_SYS, For(0, SetListener({Other})));
    assert s1.nodes[0].attached && s1.nodes[0].l == Registration({Other});
    var s2 := Step(s1, Packet(p));
    SharedStep(s1, Packet(p), 0);
    assert Other in ({Other} - {Pat, Kind.Pmt}) * {Other};
    assert [] + p == p;
    SharedStep(s2, Reset, 0);
    Steps3(NEW_SYS, For(0, SetListener({Other})), Packet(p), Reset);
  }

  function Repeat(e: Event, k: nat): seq<Event> { if k == 0 then [] else [e] + Repeat(e, k - 1) }

  /** Listener 0 takes packets on unregistered PIDs into its batch buffer. */
  lemma {:induction false} Fills(s: Sys, p: TsPacket, k: nat)
    requires s.core.pc.Idle? && s.core.pids == NO_PIDS && 0 in s.nodes && s.nodes[0].attached
             && s.nodes[0].l.filter == {Other}
    requires |s.nodes[0].l.buffer| + TS_SIZE * k <= 20 * TS_SIZE
    ensures var t := Steps(s, Repeat(Packet(p), k));
            && t.core == s.core && 0 in t.nodes && |t.nodes[0].l.buffer| == |s.nodes[0].l.buffer| + TS_SIZE * k
            && t.nodes[0].attached && t.nodes[0].hand == s.nodes[0].hand
            && t.nodes[0].l == s.nodes[0].l.(buffer := t.nodes[0].l.buffer)
    decreases k
  {
    if k > 0 {
      var e := Packet(p);
      SharedStep(s, e, 0);
      assert Other in ({Other} - {Pat, Kind.Pmt}) * {Other};
      assert Lookup([], GetPid(p)) == {Other};
      Fills(Step(s, e), p, k - 1);
      assert Repeat(e, k)[1..] == Repeat(e, k - 1);
    }
  }

  /** A run of listener 0: registered for everything unnamed and let run. */
  const RUNNING_LISTENER := [For(0, SetListener({Other})), For(0, Run), For(0, Pop), For(0, Handle(false))]

  lemma {:induction false} ListenerRuns()
    ensures var s := Steps(NEW_SYS, RUNNING_LISTENER);
            && s.core == NEW_CORE && 0 in s.nodes && s.nodes[0].attached && s.nodes[0].hand.None?
            && s.nodes[0].l == Registration({Other}).(running := true)
  {
    var reg, run, pop, handle := For(0, SetListener({Other})), For(0, Run), For(0, Pop), For(0, Handle(false));
    var s1 := Step(NEW_SYS, reg);
    assert s1.nodes[0].l == Registration({Other}) && s1.nodes[0].attached && s1.nodes[0].hand.None?;
    PrivateStep(s1, 0, Run);
    var s2 := Step(s1, run);
    assert s2.nodes[0].l == Registration({Other}).(queue := [Continue]);
    PrivateStep(s2, 0, Pop);
    var s3 := Step(s2, pop);
    assert s3.nodes[0].hand == Some(Continue) && s3.nodes[0].l == Registration({Other});
    PrivateStep(s3, 0, Handle(false));
    assert RUNNING_LISTENER == [reg, run] + [pop, handle];
    StepsAppend(NEW_SYS, [reg, run], [pop, handle]);
    Steps2(NEW_SYS, reg, run);
    Steps2(s2, pop, handle);
  }

  /** The packet that fills a batch. */
  lemma {:induction false} FullBatch(s: Sys, p: TsPacket)
    requires s.core.pc.Idle? && s.core.pids == NO_PIDS && 0 in s.nodes && s.nodes[0].attached
             && s.nodes[0].l.filter == {Other}
    requires |s.nodes[0].l.buffer| == 20 * TS_SIZE
    ensures var t, n := Step(s, Packet(p)), s.nodes[0];
            && t.core == s.core && 0 in t.nodes && t.nodes[0].attached && t.nodes[0].hand == n.hand
            && t.nodes[0].l == n.l.(buffer := [], queue := n.l.queue + [Data(n.l.buffer + p, FromStream)])
  {
    SharedStep(s, Packet(p), 0);
    assert Other in ({Other} - {Pat, Kind.Pmt}) * {Other};
    assert Lookup([], GetPid(p)) == {Other};
  }

  /** After 21 packets the worker takes the full batch. */
  lemma {:induction false} BatchTaken(p: TsPacket) returns (es: seq<Event>)
    ensures var s := Steps(NEW_SYS, es);
            && s.core == NEW_CORE && 0 in s.nodes && s.nodes[0].attached && s.nodes[0].l.buffer == []
                 && s.nodes[0].l.queue == []
            && s.nodes[0].hand.Some? && s.nodes[0].hand.value.Data? && s.nodes[0].hand.value.origin == FromStream
            && |s.nodes[0].hand.value.bytes| == BATCH
  {
    ListenerRuns();
    es := RUNNING_LISTENER;
    Fills(Steps(NEW_SYS, es), p, 20);
    StepsAppend(NEW_SYS, es, Repeat(Packet(p), 20));
    es := es + Repeat(Packet(p), 20);
    var s24 := Steps(NEW_SYS, es);
    FullBatch(s24, p);
    OneMoreStep(es, Packet(p));
    es := es + [Packet(p)];
    var s25 := Steps(NEW_SYS, es);
    assert s25.nodes[0].l.queue == [] + [Data(s24.nodes[0].l.buffer + p, FromStream)];
    PrivateStep(s25, 0, Pop);
    OneMoreStep(es, For(0, Pop));
    es := es + [For(0, Pop)];
  }

  /** Old packets are really handed over with an empty batch buffer, after a retune
      and after a new registration: the worker holds a batch. */
  lemma {:induction false} HeldBatchHandedOver(p: TsPacket, e: Event) returns (es: seq<Event>, m: Message)
    requires e == Reset || e == For(0, SetListener({Other}))
    ensures var s := Steps(NEW_SYS, es);
            var t := Step(s, e);
            && 0 in s.nodes && s.nodes[0].l.buffer == [] && Enabled(s, e)
            && HandledOf(t, [For(0, Handle(false))], 0) == [m] && ArrivalsOf(t, [For(0, Handle(false))]) == []
            && m.Data? && m.origin == FromStream && |m.bytes| == 21 * TS_SIZE
  {
    es := BatchTaken(p);
    var s := Steps(NEW_SYS, es);
    m := s.nodes[0].hand.value;
    var t, handle := Step(s, e), For(0, Handle(false));
    assert 0 in t.nodes && t.nodes[0].hand == Some(m);
    assert [handle][1..] == [];
    assert HandledOf(Step(t, handle), [], 0) == [] && ArrivalsOf(Step(t, handle), []) == [];
  }

  lemma {:induction false} ResetStartsEpoch(s: Sys, id: nat)
    requires Inv(s) && Enabled(s, Reset) && id in s.nodes && s.nodes[id].attached
    ensures var t := Step(s, Reset);
            && Inv(t) && id in t.nodes && t.nodes[id].attached && t.nodes[id].arrived == []
            && t.nodes[id].popped == [] && t.nodes[id].hand == s.nodes[id].hand
            && t.nodes[id].base == s.nodes[id].l.buffer && t.nodes[id].l.filter == s.nodes[id].l.filter
            && t.nodes[id].l.running == s.nodes[id].l.running && t.nodes[id].l.writeError == s.nodes[id].l.writeError
            && t.nodes[id].l.queue == []
  {
    StepKeeps(s, Reset);
    SharedStep(s, Reset, id);
  }

  /** What a data-thread event or a reset does, seen from one listener. */
  lemma {:induction false} SharedStep(s: Sys, e: Event, id: nat)
    requires Enabled(s, e) && !e.For? && id in s.nodes
    ensures var t := Step(s, e);
            t.core == Fields(s.core, e) && id in t.nodes && t.nodes[id] == Shared(s.core, e, s.nodes[id])
  {
  }

  /** What an action on one listener does to it. */
  lemma {:induction false} PrivateStep(s: Sys, id: nat, a: Action)
    requires id in s.nodes && CanAct(s.nodes[id], a)
    ensures var t := Step(s, For(id, a));
            t.core == s.core && id in t.nodes && t.nodes[id] == Private(s.core, a, s.nodes[id])
  {
  }

  lemma {:induction false} NothingInFront<T>(a: seq<T>, b: seq<T>)
    ensures a + b == b <==> a == []
  {
    assert a == [] ==> a + b == b;
    assert |a + b| == |a| + |b|;
  }

  // ------------------------------------------------------------------
  // The gate and the end of a worker
  // ------------------------------------------------------------------

  /** Nothing can open the gate without a new CONTINUE. */
  predicate Shut(n: Node) {
    !n.l.running && Continue !in n.l.queue && n.hand != Some(Continue)
  }

  lemma {:induction false} TablesAreData(table: seq<Byte>)
    ensures forall m :: m in TableMessages(table) ==> m.Data?
  {
    TableMessagesSized(table);
  }

  /** n' is still shut and its worker took no data on the way from n. */
  ghost predicate StaysShut(n: Node, n': Node) {
    Shut(n') && forall m :: m in n'.popped ==> m in n.popped || m.Quit?
  }

  lemma {:induction false} SendPatShut(l: Listener, pat: seq<Byte>, count: nat)
    ensures var l' := SendPat(l, pat, count);
            l'.running == l.running && (Continue in l'.queue <==> Continue in l.queue)
  {
    TablesAreData(pat);
  }

  lemma {:induction false} SendPmtShut(l: Listener, pmt: seq<Byte>, count: nat)
    ensures var l' := SendPmt(l, pmt, count);
            l'.running == l.running && (Continue in l'.queue <==> Continue in l.queue)
  {
    TablesAreData(pmt);
  }

  lemma {:induction false} RegisterShut(filter: FilterType, c: Core)
    ensures var l := ListenerState.Register(filter, c.pat.data, c.pat.count, c.pmt.data, c.pmt.count);
            !l.running && Continue !in l.queue
  {
    var l := Registration(filter);
    SendPatShut(l, c.pat.data, c.pat.count);
    SendPmtShut(SendPat(l, c.pat.data, c.pat.count), c.pmt.data, c.pmt.count);
  }

  lemma {:induction false} SharedStaysShut(c: Core, e: Event, n: Node)
    requires Shut(n) && !e.For?
    ensures StaysShut(n, Shared(c, e, n))
  {
    match e {
      case Advance =>
        SendPatShut(n.l, c.pat.data, c.pat.count);
        SendPmtShut(n.l, c.pmt.data, c.pmt.count);
      case _ =>
    }
  }

  lemma {:induction false} PrivateStaysShut(c: Core, a: Action, n: Node)
    requires NodeInv(n) && Shut(n) && CanAct(n, a) && !a.Run?
    ensures StaysShut(n, Private(c, a, n))
  {
    match a {
      case SetListener(filter) => RegisterShut(filter, c);
      case Pop => assert n.l.queue[0] in n.l.queue;
      case Handle(writeFails) => ProcessEffect(n.l, n.hand.value, writeFails);
      case _ =>
    }
  }

  lemma {:induction false} StepStaysShut(s: Sys, e: Event, id: nat)
    requires Inv(s) && id in s.nodes && Shut(s.nodes[id]) && e != For(id, Run)
    ensures id in Step(s, e).nodes && StaysShut(s.nodes[id], Step(s, e).nodes[id])
  {
    var n := s.nodes[id];
    if Enabled(s, e) {
      if !e.For? {
        SharedStaysShut(s.core, e, n);
      } else if e.id == id {
        PrivateStaysShut(s.core, e.action, n);
      }
    }
  }

  /** Until someone asks a shut listener to run, its worker takes no data,
      through any interleaving and any number of re-registrations. */
  lemma {:induction false} ShutUntilRun(s: Sys, es: seq<Event>, id: nat)
    requires Inv(s) && id in s.nodes && Shut(s.nodes[id])
    requires For(id, Run) !in es
    ensures id in Steps(s, es).nodes && StaysShut(s.nodes[id], Steps(s, es).nodes[id])
    decreases |es|
  {
    if es != [] {
      StepStaysShut(s, es[0], id);
      StepKeeps(s, es[0]);
      ShutUntilRun(Step(s, es[0]), es[1..], id);
    }
  }

  /** Registering shuts the gate exactly when the worker does not hold a
      CONTINUE from before: that one still opens it. */
  lemma {:induction false} RegistrationShutsIff(s: Sys, id: nat, filter: FilterType)
    requires Enabled(s, For(id, SetListener(filter)))
    ensures var n := Step(s, For(id, SetListener(filter))).nodes[id];
            Shut(n) <==> !(id in s.nodes && s.nodes[id].hand == Some(Continue))
  {
    RegisterShut(filter, s.core);
  }

  /** The late CONTINUE is real: register, run, pop, register again, handle. */
  lemma {:induction false} HeldContinueOpensGate(filter: FilterType)
    ensures var s := Steps(NEW_SYS, [For(0, SetListener(filter)), For(0, Run), For(0, Pop)]);
            var t := Steps(s, [For(0, SetListener(filter)), For(0, Handle(false))]);
            0 in t.nodes && t.nodes[0].l.running
  {
    var reg, run, pop, handle := For(0, SetListener(filter)), For(0, Run), For(0, Pop), For(0, Handle(false));
    var s1 := Step(NEW_SYS, reg);
    var s2 := Step(s1, run);
    var s3 := Step(s2, pop);
    Steps3(NEW_SYS, reg, run, pop);
    assert s1.nodes[0].attached && s2.nodes[0].l.queue == [Continue];
    assert s3.nodes[0].hand == Some(Continue) && s3.nodes[0].attached;
    Steps2(s3, reg, handle);
    assert Step(s3, reg).nodes[0].hand == Some(Continue);
  }

  lemma {:induction false} Steps2(s: Sys, a: Event, b: Event)
    ensures Steps(s, [a, b]) == Step(Step(s, a), b)
  {
    assert [a, b][1..] == [b] && [b][1..] == [];
    assert Steps(Step(s, a), [b]) == Steps(Step(Step(s, a), b), []);
  }

  lemma {:induction false} Steps3(s: Sys, a: Event, b: Event, c: Event)
    ensures Steps(s, [a, b, c]) == Step(Step(Step(s, a), b), c)
  {
    assert [a, b, c][1..] == [b, c];
    Steps2(Step(s, a), b, c);
  }

  /** In every reachable state: control messages come first in the queue, a
      waiting one can be taken at once, and data is taken only while running. */
  lemma {:induction false} QueueGate(es: seq<Event>, id: nat)
    requires id in Steps(NEW_SYS, es).nodes
    ensures var n := Steps(NEW_SYS, es).nodes[id];
            && Shape(n.l.queue)
            && (forall m :: m in n.l.queue && IsControl(m) ==> CanPop(n.l))
            && (CanPop(n.l) && !IsControl(n.l.queue[0]) ==> n.l.running && forall m :: m in n.l.queue ==> !IsControl(m))
            && (CanPop(n.l) <==> n.l.queue != [] && (n.l.running || n.l.queue[0] == Continue || n.l.queue[0] == Quit))
  {
    Reachable(es);
    var n := Steps(NEW_SYS, es).nodes[id];
    forall m | m in n.l.queue && IsControl(m) ensures CanPop(n.l) && IsControl(n.l.queue[0]) {
      ControlNotStuck(n.l, m);
    }
  }

  lemma {:induction false} TerminatedStays(s: Sys, e: Event, id: nat)
    requires Inv(s) && id in s.nodes && s.nodes[id].l.terminate
    ensures id in Step(s, e).nodes && Step(s, e).nodes[id] == s.nodes[id]
  {
    assert QuitInv(s.nodes[id]);
  }

  /** After QUIT nothing more happens to a listener, whatever the rest does. */
  lemma {:induction false} QuitIsFinal(s: Sys, es: seq<Event>, id: nat)
    requires Inv(s) && id in s.nodes && s.nodes[id].l.terminate
    ensures id in Steps(s, es).nodes && Steps(s, es).nodes[id] == s.nodes[id]
    decreases |es|
  {
    if es != [] {
      TerminatedStays(s, es[0], id);
      StepKeeps(s, es[0]);
      QuitIsFinal(Step(s, es[0]), es[1..], id);
    }
  }

  // ------------------------------------------------------------------
  // Tables
  // ------------------------------------------------------------------

  /** In every reachable state a listener on the list has been given, since its
      epoch began, the PAT and then the PMT, each at most once and byte for byte;
      outside a broadcast it has the PAT exactly when there is one, and the PMT
      exactly when there is one and it did not go out before the PAT. A published
      count always comes with that many packets of data. */
  lemma {:induction false} TablesDelivered(es: seq<Event>, id: nat)
    requires var s := Steps(NEW_SYS, es); id in s.nodes && s.nodes[id].attached
    ensures var s := Steps(NEW_SYS, es);
            var c, n := s.core, s.nodes[id];
            && BytesFrom(n.popped, FromTable) + BytesFrom(n.l.queue, FromTable)
               == (if n.l.havePat then c.pat.data else []) + (if n.l.havePmt then c.pmt.data else [])
            && (n.l.havePmt ==> n.l.havePat)
            && (c.pc.Idle? ==> (n.l.havePat <==> c.pat.count > 0))
            && (c.pc.Idle? ==> (n.l.havePmt <==> c.pmt.count > 0 && !n.missed))
            && (!c.early ==> !n.missed)
            && (c.pat.count > 0 ==> |c.pat.data| == TS_SIZE * c.pat.count)
            && (c.pmt.count > 0 ==> |c.pmt.data| == TS_SIZE * c.pmt.count)
  {
    Reachable(es);
    var n := Steps(NEW_SYS, es).nodes[id];
    BytesAppend(n.popped, n.l.queue, FromTable);
  }

  predicate PatGenerated(e: Event) {
    e.PatSection? ==> TableCount(e.section) > 0
  }

  ghost predicate PatFirst(c: Core) {
    && !c.early
    && (c.pmtAttached ==> c.pat.count > 0 || (c.pc.PatData? && c.pc.n > 0) || (c.pc.PatCount? && c.pc.n > 0))
  }

  /** The PMT is never taken up before the PAT is out as long as every PAT that
      lists the program could be rewritten. */
  lemma {:induction false} PatComesFirst(s: Sys, es: seq<Event>)
    requires Inv(s) && PatFirst(s.core) && forall e :: e in es ==> PatGenerated(e)
    ensures PatFirst(Steps(s, es).core)
    decreases |es|
  {
    if es != [] {
      assert es[0] in es;
      StepKeeps(s, es[0]);
      PatComesFirst(Step(s, es[0]), es[1..]);
    }
  }

  /** Hence every listener on the list has both tables whenever they are out and
      no callback is running. */
  lemma {:induction false} BothTablesDelivered(es: seq<Event>, id: nat)
    requires var s := Steps(NEW_SYS, es); id in s.nodes && s.nodes[id].attached && s.core.pc.Idle?
    requires forall e :: e in es ==> PatGenerated(e)
    ensures var s := Steps(NEW_SYS, es);
            var c, n := s.core, s.nodes[id];
            (n.l.havePat <==> c.pat.count > 0) && (n.l.havePmt <==> c.pmt.count > 0)
  {
    Reachable(es);
    PatComesFirst(NEW_SYS, es);
  }

  lemma {:induction false} OneMoreStep(es: seq<Event>, e: Event)
    ensures Steps(NEW_SYS, es + [e]) == Step(Steps(NEW_SYS, es), e)
  {
    StepsAppend(NEW_SYS, es, [e]);
    assert [e][1..] == [];
    assert Steps(Step(Steps(NEW_SYS, es), e), []) == Step(Steps(NEW_SYS, es), e);
  }

  /** One more data-thread event, seen from listener 0. */
  lemma {:induction false} ExtendShared(es: seq<Event>, e: Event) returns (r: seq<Event>)
    requires var s := Steps(NEW_SYS, es); Enabled(s, e) && !e.For? && 0 in s.nodes
    ensures var s, t := Steps(NEW_SYS, es), Steps(NEW_SYS, r);
            t.core == Fields(s.core, e) && 0 in t.nodes && t.nodes[0] == Shared(s.core, e, s.nodes[0])
  {
    r := es + [e];
    OneMoreStep(es, e);
    SharedStep(Steps(NEW_SYS, es), e, 0);
  }

  /** Runs a PAT callback to its end. */
  lemma {:induction false} RunPat(es: seq<Event>, pid: nat, section: Option<seq<Byte>>) returns (r: seq<Event>)
    requires var c := Steps(NEW_SYS, es).core; c.pc.Idle? && !c.pat.done
    requires 0 in Steps(NEW_SYS, es).nodes && Steps(NEW_SYS, es).nodes[0].attached
    ensures var s, t := Steps(NEW_SYS, es), Steps(NEW_SYS, r);
            && 0 in t.nodes && t.nodes[0].attached && t.core.pc.Idle? && t.core.pmtAttached && t.core.pmt == s.core.pmt
            && t.core.pat.count == TableCount(section)
                 && t.core.pat.done == (s.core.pat.done || TableCount(section) > 0)
            && t.nodes[0].l.havePat == (s.nodes[0].l.havePat || TableCount(section) > 0)
            && t.nodes[0].l.havePmt == s.nodes[0].l.havePmt
  {
    r := ExtendShared(es, PatSection(pid, section));
    r := ExtendShared(r, Advance);
    r := ExtendShared(r, Advance);
    if TableCount(section) > 0 {
      r := ExtendShared(r, Advance);
    }
  }

  /** Runs a PMT callback to its end, while the listener has no PAT. */
  lemma {:induction false} RunPmt(es: seq<Event>, section: Option<seq<Byte>>) returns (r: seq<Event>)
    requires var c := Steps(NEW_SYS, es).core; c.pc.Idle? && !c.pmt.done && c.pmtAttached
    requires 0 in Steps(NEW_SYS, es).nodes && Steps(NEW_SYS, es).nodes[0].attached
             && !Steps(NEW_SYS, es).nodes[0].l.havePat
    ensures var s, t := Steps(NEW_SYS, es), Steps(NEW_SYS, r);
            && 0 in t.nodes && t.nodes[0].attached && t.core.pc.Idle? && t.core.pat == s.core.pat
            && t.core.pmt.count == TableCount(section)
            && !t.nodes[0].l.havePat && t.nodes[0].l.havePmt == s.nodes[0].l.havePmt
  {
    r := ExtendShared(es, PmtSection(section, [], 0x1ff));
    r := ExtendShared(r, Advance);
    r := ExtendShared(r, Advance);
    r := ExtendShared(r, Advance);
  }

  /** The condition is needed: when the first rewritten PAT comes to nothing, the
      PMT goes out before any PAT, and a listener that was there all along ends
      up with the PAT but without the PMT that is out. */
  lemma {:induction false} PmtMissed() returns (es: seq<Event>)
    ensures var s := Steps(NEW_SYS, es);
            && 0 in s.nodes && s.nodes[0].attached && s.core.pc.Idle?
            && s.core.pat.count > 0 && s.core.pmt.count > 0
            && s.nodes[0].l.havePat && !s.nodes[0].l.havePmt
  {
    OneMoreStep([], For(0, SetListener({Video})));
    es := [] + [For(0, SetListener({Video}))];
    es := RunPat(es, 0x100, None);
    es := RunPmt(es, Some([2]));
    es := RunPat(es, 0x100, Some([0]));
  }

  /** The worker that handles QUIT ends there: nothing happens to its listener any
      more. End of stream and a failed write are remembered until a registration. */
  lemma {:induction false} HandledMeans(s: Sys, id: nat, writeFails: bool, es: seq<Event>)
    requires Inv(s) && id in s.nodes && s.nodes[id].hand.Some?
    ensures var t := Step(s, For(id, Handle(writeFails)));
            var m, n, n' := s.nodes[id].hand.value, s.nodes[id], t.nodes[id];
            && (n'.l.terminate <==> m == Quit) && (n'.l.eos <==> n.l.eos || m == Eos)
            && (n'.l.running <==> n.l.running || m == Continue)
            && (n'.l.writeError <==> n.l.writeError || (m.Data? && writeFails))
            && (m == Quit ==> id in Steps(t, es).nodes && Steps(t, es).nodes[id] == n')
  {
    var t := Step(s, For(id, Handle(writeFails)));
    assert NodeInv(s.nodes[id]);
    PrivateStep(s, id, Handle(writeFails));
    if s.nodes[id].hand.value == Quit {
      StepKeeps(s, For(id, Handle(writeFails)));
      QuitIsFinal(t, es, id);
    }
  }
}
