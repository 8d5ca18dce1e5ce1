/** Reading the descriptors of an event: extended-event fragments are put
    together (ETSI EN 300 468, sections 6.2.15 and 6.2.37). */
module Epg {
  import opened Bytes
  import opened Dates
  import opened Descriptors

  datatype ShortEvent = ShortEvent(language: seq<Byte>, description: Option<Text>, text: Option<Text>)
  datatype ExtendedEvent = ExtendedEvent(language: seq<Byte>, items: seq<Item>, text: Text)

  function TextOf(t: Option<Text>): Text { if t.Some? then t.value else [] }

  function Reverse<T>(s: seq<T>): seq<T> {
    if s == [] then [] else Reverse(s[1..]) + [s[0]]
  }

  lemma {:induction false} ReverseAppend<T>(a: seq<T>, b: seq<T>)
    ensures Reverse(a + b) == Reverse(b) + Reverse(a)
  {
    if a == [] {
      assert a + b == b;
      assert Reverse(b) + [] == Reverse(b);
    } else {
      assert (a + b)[1..] == a[1..] + b;
      ReverseAppend(a[1..], b);
    }
  }

  /** Prepending and reversing at the end is appending. */
  lemma {:induction false} ReversePrepend<T>(x: T, s: seq<T>)
    ensures Reverse([x] + s) == Reverse(s) + [x]
  {
    assert ([x] + s)[1..] == s;
  }

  function EventOf(d: ShortDescriptor): ShortEvent { ShortEvent(d.language, d.description, d.text) }

  function Shorts(ds: seq<Descriptor>): seq<ShortEvent> {
    if ds == [] then []
    else (if ds[0].Short? then [EventOf(ds[0].short)] else []) + Shorts(ds[1..])
  }

  /** One more fragment: the event under collection, from 0 on a new one. */
  function Extend(open: Option<ExtendedEvent>, d: ExtendedDescriptor): Option<ExtendedEvent> {
    var base := if d.number == 0 then Some(ExtendedEvent(d.language, [], [])) else open;
    match base
    case None => None
    case Some(e) => Some(e.(items := e.items + d.items, text := e.text + TextOf(d.text)))
  }

  /** The extended events of a descriptor list: start at 0 (dropping what was
      open), ignore what was not started, emit at number == last. */
  function Collect(ds: seq<Descriptor>, open: Option<ExtendedEvent>): seq<ExtendedEvent> {
    if ds == [] then []
    else if !ds[0].Extended? then Collect(ds[1..], open)
    else
      var d := ds[0].extended;
      match Extend(open, d)
      case None => Collect(ds[1..], None)
      case Some(e) => if d.number == d.last then [e] + Collect(ds[1..], None) else Collect(ds[1..], Some(e))
  }

  // ------------------------------------------------------------------
  // Round trip
  // ------------------------------------------------------------------

  /** An event as cut up by a broadcaster: texts and items of its fragments. */
  datatype Fragment = Fragment(items: seq<Item>, text: Option<Text>)
  datatype Original = Original(language: seq<Byte>, fragments: seq<Fragment>)

  function Cut(o: Original, from: nat): seq<Descriptor>
    requires from <= |o.fragments|
    decreases |o.fragments| - from
  {
    if from == |o.fragments| then []
    else
      var f := o.fragments[from];
      [Extended(ExtendedDescriptor(from, |o.fragments| - 1, o.language, f.items, f.text))] + Cut(o, from + 1)
  }

  function CutAll(os: seq<Original>): seq<Descriptor> {
    if os == [] then [] else Cut(os[0], 0) + CutAll(os[1..])
  }

  /** The event put together from its first n fragments. */
  function Joined(o: Original, n: nat): ExtendedEvent
    requires n <= |o.fragments|
  {
    if n == 0 then ExtendedEvent(o.language, [], [])
    else
      var e, f := Joined(o, n - 1), o.fragments[n - 1];
      e.(items := e.items + f.items, text := e.text + TextOf(f.text))
  }

  function JoinedAll(os: seq<Original>): seq<ExtendedEvent> {
    seq(|os|, i requires 0 <= i < |os| => Joined(os[i], |os[i].fragments|))
  }

  lemma {:induction false} CollectOne(o: Original, from: nat, rest: seq<Descriptor>)
    requires from < |o.fragments|
    ensures Collect(Cut(o, from) + rest, if from == 0 then None else Some(Joined(o, from)))
            == [Joined(o, |o.fragments|)] + Collect(rest, None)
    decreases |o.fragments| - from
  {
    var ds := Cut(o, from) + rest;
    var open := if from == 0 then None else Some(Joined(o, from));
    assert ds[1..] == Cut(o, from + 1) + rest;
    assert Extend(open, ds[0].extended) == Some(Joined(o, from + 1));
    if from + 1 == |o.fragments| {
      assert ds[1..] == rest;
    } else {
      CollectOne(o, from + 1, rest);
    }
  }

  lemma {:induction false} CollectAll(os: seq<Original>)
    requires forall i :: 0 <= i < |os| ==> |os[i].fragments| > 0
    ensures Collect(CutAll(os), None) == JoinedAll(os)
  {
    if os != [] {
      CollectOne(os[0], 0, CutAll(os[1..]));
      CollectAll(os[1..]);
    }
  }

  function OnlyExtended(ds: seq<Descriptor>): seq<Descriptor> {
    if ds == [] then [] else (if ds[0].Extended? then [ds[0]] else []) + OnlyExtended(ds[1..])
  }

  lemma {:induction false} OthersDoNotMatter(ds: seq<Descriptor>, open: Option<ExtendedEvent>)
    ensures Collect(ds, open) == Collect(OnlyExtended(ds), open)
    decreases |ds|
  {
    if ds != [] {
      if ds[0].Extended? {
        assert OnlyExtended(ds)[1..] == OnlyExtended(ds[1..]);
        var d := ds[0].extended;
        var e := Extend(open, d);
        OthersDoNotMatter(ds[1..], if e.None? || d.number == d.last then None else e);
      } else {
        assert OnlyExtended(ds) == OnlyExtended(ds[1..]);
        OthersDoNotMatter(ds[1..], open);
      }
    }
  }

  /** Whatever other descriptors lie in between, reading the fragments of any
      list of events gives back their texts and items, in order. */
  lemma {:induction false} ReassemblyRoundTrip(os: seq<Original>, ds: seq<Descriptor>)
    requires forall i :: 0 <= i < |os| ==> |os[i].fragments| > 0
    requires OnlyExtended(ds) == CutAll(os)
    ensures Collect(ds, None) == JoinedAll(os)
  {
    OthersDoNotMatter(ds, None);
    CollectAll(os);
  }

  // ------------------------------------------------------------------
  // From the broadcast bytes
  // ------------------------------------------------------------------

  datatype RawFragment = RawFragment(items: seq<RawItem>, text: ShortString)
  datatype RawOriginal = RawOriginal(language: seq<Byte>, fragments: seq<RawFragment>)

  /** An event that fits sixteen descriptors with one-byte lengths. */
  ghost predicate Broadcastable(o: RawOriginal) {
    && |o.language| == 3 && 0 < |o.fragments| <= 16
    && forall k :: 0 <= k < |o.fragments| ==> |EncodeItems(o.fragments[k].items)| < 0x100
  }

  ghost function Broadcast(o: RawOriginal, from: nat): seq<RawDescriptor>
    requires Broadcastable(o) && from <= |o.fragments|
    decreases |o.fragments| - from
  {
    if from == |o.fragments| then [] else [RawFragmentOf(o, from)] + Broadcast(o, from + 1)
  }

  ghost function BroadcastAll(os: seq<RawOriginal>): seq<RawDescriptor>
    requires forall i :: 0 <= i < |os| ==> Broadcastable(os[i])
  {
    if os == [] then [] else Broadcast(os[0], 0) + BroadcastAll(os[1..])
  }

  /** The event with its strings converted. */
  function Converted(conv: Converter, o: RawOriginal): Original {
    Original(o.language, seq(|o.fragments|, k requires 0 <= k < |o.fragments| =>
      Fragment(Items(conv, o.fragments[k].items), Convert(conv, o.fragments[k].text))))
  }

  function ConvertedAll(conv: Converter, os: seq<RawOriginal>): seq<Original> {
    seq(|os|, i requires 0 <= i < |os| => Converted(conv, os[i]))
  }

  predicate AllInBounds(conv: Converter, raws: seq<RawDescriptor>) {
    forall i :: 0 <= i < |raws| ==> InBounds(conv, raws[i])
  }

  function DecodeAll(conv: Converter, raws: seq<RawDescriptor>): seq<Descriptor>
    requires AllInBounds(conv, raws)
  {
    if raws == [] then [] else [Decode(conv, raws[0])] + DecodeAll(conv, raws[1..])
  }

  lemma {:induction false} BoundsAppend(conv: Converter, a: seq<RawDescriptor>, b: seq<RawDescriptor>)
    requires AllInBounds(conv, a) && AllInBounds(conv, b)
    ensures AllInBounds(conv, a + b)
  {
  }

  lemma {:induction false} DecodeFirst(conv: Converter, raw: RawDescriptor, rest: seq<RawDescriptor>)
    requires AllInBounds(conv, [raw] + rest)
    ensures InBounds(conv, raw) && AllInBounds(conv, rest)
    ensures DecodeAll(conv, [raw] + rest) == [Decode(conv, raw)] + DecodeAll(conv, rest)
  {
    var all := [raw] + rest;
    assert all[0] == raw && all[1..] == rest;
    assert forall i :: 0 <= i < |rest| ==> rest[i] == all[i + 1];
  }

  lemma {:induction false} DecodeAppend(conv: Converter, a: seq<RawDescriptor>, b: seq<RawDescriptor>)
    requires AllInBounds(conv, a) && AllInBounds(conv, b) && AllInBounds(conv, a + b)
    ensures DecodeAll(conv, a + b) == DecodeAll(conv, a) + DecodeAll(conv, b)
    decreases |a|
  {
    if a == [] {
      assert a + b == b;
    } else {
      assert a + b == [a[0]] + (a[1..] + b);
      DecodeFirst(conv, a[0], a[1..] + b);
      DecodeAppend(conv, a[1..], b);
    }
  }

  /** c is o with its strings converted. */
  ghost predicate IsConverted(conv: Converter, o: RawOriginal, c: Original) {
    && c.language == o.language && |c.fragments| == |o.fragments|
    && forall k :: 0 <= k < |o.fragments| ==>
         c.fragments[k] == Fragment(Items(conv, o.fragments[k].items), Convert(conv, o.fragments[k].text))
  }

  ghost function RawFragmentOf(o: RawOriginal, k: nat): RawDescriptor
    requires Broadcastable(o) && k < |o.fragments|
  {
    var f := o.fragments[k];
    RawDescriptor(TAG_EXTENDED_EVENT, EncodeExtended(k, |o.fragments| - 1, o.language, f.items, f.text))
  }

  lemma {:induction false} FragmentRead(conv: Converter, o: RawOriginal, c: Original, k: nat)
    requires Broadcastable(o) && k < |o.fragments| && IsConverted(conv, o, c)
    ensures InBounds(conv, RawFragmentOf(o, k))
    ensures Decode(conv, RawFragmentOf(o, k)) ==
            Extended(ExtendedDescriptor(k, |c.fragments| - 1, c.language, c.fragments[k].items, c.fragments[k].text))
  {
    var f := o.fragments[k];
    ExtendedRoundTrip(conv, k, |o.fragments| - 1, o.language, f.items, f.text);
  }

  lemma {:induction false} InBoundsCons(conv: Converter, first: RawDescriptor, rest: seq<RawDescriptor>)
    requires InBounds(conv, first) && AllInBounds(conv, rest)
    ensures AllInBounds(conv, [first] + rest)
  {
  }

  lemma {:induction false} CutStep(o: Original, from: nat)
    requires from < |o.fragments|
    ensures var f := o.fragments[from];
            Cut(o, from) ==
            [Extended(ExtendedDescriptor(from, |o.fragments| - 1, o.language, f.items, f.text))] + Cut(o, from + 1)
  {
  }

  lemma {:induction false} DecodeFragments(conv: Converter, o: RawOriginal, c: Original, from: nat)
    requires Broadcastable(o) && from <= |o.fragments| && IsConverted(conv, o, c)
    ensures AllInBounds(conv, Broadcast(o, from)) && DecodeAll(conv, Broadcast(o, from)) == Cut(c, from)
    decreases |o.fragments| - from
  {
    if from < |o.fragments| {
      var first, rest := RawFragmentOf(o, from), Broadcast(o, from + 1);
      DecodeFragments(conv, o, c, from + 1);
      FragmentRead(conv, o, c, from);
      InBoundsCons(conv, first, rest);
      DecodeFirst(conv, first, rest);
      CutStep(c, from);
    }
  }

  lemma {:induction false} DecodeBroadcast(conv: Converter, o: RawOriginal)
    requires Broadcastable(o)
    ensures AllInBounds(conv, Broadcast(o, 0)) && DecodeAll(conv, Broadcast(o, 0)) == Cut(Converted(conv, o), 0)
  {
    DecodeFragments(conv, o, Converted(conv, o), 0);
  }

  lemma {:induction false} DecodeBroadcastAll(conv: Converter, os: seq<RawOriginal>)
    requires forall i :: 0 <= i < |os| ==> Broadcastable(os[i])
    ensures AllInBounds(conv, BroadcastAll(os)) && DecodeAll(conv, BroadcastAll(os)) == CutAll(ConvertedAll(conv, os))
  {
    if os != [] {
      DecodeBroadcast(conv, os[0]);
      DecodeBroadcastAll(conv, os[1..]);
      BoundsAppend(conv, Broadcast(os[0], 0), BroadcastAll(os[1..]));
      DecodeAppend(conv, Broadcast(os[0], 0), BroadcastAll(os[1..]));
      assert ConvertedAll(conv, os)[1..] == ConvertedAll(conv, os[1..]);
    }
  }

  function ExtendedOnly(raws: seq<RawDescriptor>): seq<RawDescriptor> {
    if raws == [] then [] else (if raws[0].tag == TAG_EXTENDED_EVENT then [raws[0]] else []) + ExtendedOnly(raws[1..])
  }

  lemma {:induction false} DecodeExtendedOnly(conv: Converter, raws: seq<RawDescriptor>)
    requires AllInBounds(conv, raws)
    ensures AllInBounds(conv, ExtendedOnly(raws))
            && OnlyExtended(DecodeAll(conv, raws)) == DecodeAll(conv, ExtendedOnly(raws))
  {
    if raws != [] {
      DecodeExtendedOnly(conv, raws[1..]);
      var rest := ExtendedOnly(raws[1..]);
      assert DecodeAll(conv, raws)[1..] == DecodeAll(conv, raws[1..]);
      if raws[0].tag == TAG_EXTENDED_EVENT {
        assert ExtendedOnly(raws)[1..] == rest;
      } else {
        assert ExtendedOnly(raws) == rest;
      }
    }
  }

  /** From bytes to events: whatever other descriptors lie in between, decoding
      and collecting what was broadcast gives the original texts and items. */
  lemma {:induction false} BroadcastRoundTrip(conv: Converter, os: seq<RawOriginal>, raws: seq<RawDescriptor>)
    requires forall i :: 0 <= i < |os| ==> Broadcastable(os[i])
    requires AllInBounds(conv, raws) && ExtendedOnly(raws) == BroadcastAll(os)
    ensures Collect(DecodeAll(conv, raws), None) == JoinedAll(ConvertedAll(conv, os))
  {
    DecodeExtendedOnly(conv, raws);
    DecodeBroadcastAll(conv, os);
    ReassemblyRoundTrip(ConvertedAll(conv, os), DecodeAll(conv, raws));
  }

  // ------------------------------------------------------------------
  // The reader
  // ------------------------------------------------------------------

  /** An event under collection with its items in order. */
  function InOrder(open: Option<ExtendedEvent>): Option<ExtendedEvent> {
    if open.None? then None else Some(open.value.(items := Reverse(open.value.items)))
  }

  class EPGEvent {
    var eventId: nat
    var tableId: nat
    var runningStatus: nat
    var startTime: int
    var duration: nat
    var shortDescriptions: seq<ShortEvent>
    var extendedDescriptions: seq<ExtendedEvent>

    constructor ()
      ensures shortDescriptions == [] && extendedDescriptions == []
    {
      eventId, tableId, runningStatus, startTime, duration := 0, 0, 0, 0, 0;
      shortDescriptions, extendedDescriptions := [], [];
    }

    method TakeShort(d: ShortDescriptor)
      modifies this`shortDescriptions
      ensures Reverse(shortDescriptions) == Reverse(old(shortDescriptions)) + [EventOf(d)]
    {
      var se := EventOf(d);
      ReversePrepend(se, shortDescriptions);
      shortDescriptions := [se] + shortDescriptions;
    }

    /** Takes up one fragment; an event that is complete goes to the list. The
        event under collection holds its items newest first. */
    method TakeExtended(d: ExtendedDescriptor, open: Option<ExtendedEvent>) returns (ee: Option<ExtendedEvent>)
      modifies this`extendedDescriptions
      ensures var next := Extend(InOrder(open), d);
              if next.Some? && d.number == d.last
              then ee.None? && Reverse(extendedDescriptions) == Reverse(old(extendedDescriptions)) + [next.value]
              else InOrder(ee) == next && extendedDescriptions == old(extendedDescriptions)
    {
      ee := open;
      if d.number == 0 {
        ee := Some(ExtendedEvent(d.language, [], []));
      }
      if ee.None? {
        return;
      }
      var collected := ee.value.items;
      var k := 0;
      while k < |d.items|
        invariant 0 <= k <= |d.items|
        invariant Reverse(collected) == Reverse(ee.value.items) + d.items[..k]
        invariant extendedDescriptions == old(extendedDescriptions)
      {
        ReversePrepend(d.items[k], collected);
        collected := [d.items[k]] + collected;
        k := k + 1;
      }
      assert d.items[..k] == d.items;
      ee := Some(ee.value.(items := collected, text := ee.value.text + TextOf(d.text)));
      ghost var next := Extend(InOrder(open), d);
      assert InOrder(ee) == next && next.Some?;
      if d.number == d.last {
        var done := ee.value.(items := Reverse(ee.value.items));
        assert done == next.value;
        ReversePrepend(done, extendedDescriptions);
        extendedDescriptions := [done] + extendedDescriptions;
        ee := None;
      }
    }

    /** Prepends what it reads to both lists and reverses them at the end. */
    method ReadDescriptors(ds: seq<Descriptor>)
      modifies this`shortDescriptions, this`extendedDescriptions
      ensures shortDescriptions == Reverse(old(shortDescriptions)) + Shorts(ds)
      ensures extendedDescriptions == Reverse(old(extendedDescriptions)) + Collect(ds, None)
    {
      var ee: Option<ExtendedEvent> := None;
      var rest := ds;
      while rest != []
        invariant Reverse(shortDescriptions) + Shorts(rest) == Reverse(old(shortDescriptions)) + Shorts(ds)
        invariant Reverse(extendedDescriptions) + Collect(rest, InOrder(ee)) == Reverse(old(extendedDescriptions))
                  + Collect(ds, None)
        decreases |rest|
      {
        var d := rest[0];
        ghost var shorts, extended, open := Reverse(shortDescriptions), Reverse(extendedDescriptions), InOrder(ee);
        if d.Short? {
          TakeShort(d.short);
          assert shorts + ([EventOf(d.short)] + Shorts(rest[1..]))
              == Reverse(shortDescriptions) + Shorts(rest[1..]);
        } else {
          assert Shorts(rest) == Shorts(rest[1..]);
        }
        if d.Extended? {
          ee := TakeExtended(d.extended, ee);
          ghost var next := Extend(open, d.extended);
          if next.Some? && d.extended.number == d.extended.last {
            assert extended + ([next.value] + Collect(rest[1..], None)) == Reverse(extendedDescriptions)
                + Collect(rest[1..], None);
          }
        }
        rest := rest[1..];
      }
      shortDescriptions := Reverse(shortDescriptions);
      extendedDescriptions := Reverse(extendedDescriptions);
    }
  }

  /** An entry of an event table. */
  datatype EitEntry = EitEntry(eventId: nat, runningStatus: nat, startTime: nat, duration: nat,
      descriptors: seq<Descriptor>)

  ghost predicate Reads(e: EPGEvent, entry: EitEntry, tableId: nat)
    requires entry.startTime < TWO64
    reads e
  {
    && e.eventId == entry.eventId && e.runningStatus == entry.runningStatus && e.tableId == tableId
    && e.startTime == ConvertDatetime(entry.startTime) && e.duration == ConvertBcdTime(entry.duration)
    && e.shortDescriptions == Shorts(entry.descriptors) && e.extendedDescriptions == Collect(entry.descriptors, None)
  }

  /** One new event per entry, in table order. */
  method ReadTable(tableId: nat, entries: seq<EitEntry>) returns (events: seq<EPGEvent>)
    requires forall i :: 0 <= i < |entries| ==> entries[i].startTime < TWO64
    ensures |events| == |entries|
    ensures forall i :: 0 <= i < |entries| ==> fresh(events[i]) && Reads(events[i], entries[i], tableId)
  {
    events := [];
    var k := 0;
    while k < |entries|
      invariant 0 <= k <= |entries| && |events| == k
      invariant forall i :: 0 <= i < k ==> fresh(events[i]) && Reads(events[i], entries[i], tableId)
    {
      var e := new EPGEvent();
      e.runningStatus, e.eventId, e.tableId := entries[k].runningStatus, entries[k].eventId, tableId;
      e.startTime := ConvertDatetime(entries[k].startTime);
      e.duration := ConvertBcdTime(entries[k].duration);
      assert e.shortDescriptions == [] && e.extendedDescriptions == [];
      e.ReadDescriptors(entries[k].descriptors);
      events := events + [e];
      k := k + 1;
    }
  }

  // ------------------------------------------------------------------
  // Short events, and fragments out of order
  // ------------------------------------------------------------------

  datatype RawShort = RawShort(language: seq<Byte>, description: ShortString, text: ShortString)

  ghost predicate AllThreeLetters(ss: seq<RawShort>) {
    forall i :: 0 <= i < |ss| ==> |ss[i].language| == 3
  }

  function BroadcastShorts(ss: seq<RawShort>): seq<RawDescriptor> {
    seq(|ss|, i requires 0 <= i < |ss| =>
      RawDescriptor(TAG_SHORT_EVENT, ss[i].language + (Lengthened(ss[i].description) + Lengthened(ss[i].text))))
  }

  lemma {:induction false} FirstShort(d: Descriptor, more: seq<Descriptor>)
    requires d.Short?
    ensures Shorts([d] + more) == [EventOf(d.short)] + Shorts(more)
  {
    assert ([d] + more)[1..] == more;
  }

  /** From bytes to short events: language, description and text come back, each in
      its place, in order. */
  lemma {:induction false} ShortsRoundTrip(conv: Converter, ss: seq<RawShort>)
    requires AllThreeLetters(ss)
    ensures AllInBounds(conv, BroadcastShorts(ss))
    ensures Shorts(DecodeAll(conv, BroadcastShorts(ss))) ==
            seq(|ss|, i requires 0 <= i < |ss| =>
              ShortEvent(ss[i].language, Convert(conv, ss[i].description), Convert(conv, ss[i].text)))
  {
    if ss != [] {
      var s, raws := ss[0], BroadcastShorts(ss);
      ShortRoundTrip(conv, s.language, s.description, s.text);
      ShortsRoundTrip(conv, ss[1..]);
      assert raws == [raws[0]] + BroadcastShorts(ss[1..]);
      assert InBounds(conv, raws[0]);
      BoundsAppend(conv, [raws[0]], BroadcastShorts(ss[1..]));
      DecodeFirst(conv, raws[0], BroadcastShorts(ss[1..]));
      var more := DecodeAll(conv, BroadcastShorts(ss[1..]));
      FirstShort(Decode(conv, raws[0]), more);
    }
  }

  /** Short events are read in order; descriptors of other kinds add none. */
  lemma {:induction false} ShortsAppend(a: seq<Descriptor>, b: seq<Descriptor>)
    ensures Shorts(a + b) == Shorts(a) + Shorts(b)
    decreases |a|
  {
    if a == [] {
      assert a + b == b;
    } else {
      assert (a + b)[1..] == a[1..] + b;
      ShortsAppend(a[1..], b);
    }
  }

  lemma {:induction false} NoShorts(a: seq<Descriptor>)
    requires forall i :: 0 <= i < |a| ==> !a[i].Short?
    ensures Shorts(a) == []
  {
    if a != [] {
      NoShorts(a[1..]);
    }
  }

  /** Any event under collection is dropped when a new one starts. */
  lemma {:induction false} StartDropsOpen(d: ExtendedDescriptor, rest: seq<Descriptor>, open: Option<ExtendedEvent>)
    requires d.number == 0
    ensures Collect([Extended(d)] + rest, open) == Collect([Extended(d)] + rest, None)
  {
    assert ([Extended(d)] + rest)[1..] == rest;
  }

  /** Fragments before the first one with number 0 are ignored. */
  lemma {:induction false} NotStartedIgnored(ds: seq<Descriptor>, rest: seq<Descriptor>)
    requires forall i :: 0 <= i < |ds| && ds[i].Extended? ==> ds[i].extended.number != 0
    ensures Collect(ds + rest, None) == Collect(rest, None)
    decreases |ds|
  {
    if ds == [] {
      assert ds + rest == rest;
    } else {
      assert (ds + rest)[1..] == ds[1..] + rest;
      assert forall i :: 0 <= i < |ds[1..]| ==> ds[1..][i] == ds[i + 1];
      NotStartedIgnored(ds[1..], rest);
    }
  }

  /** An event put together has all items and all texts of its fragments, in order. */
  lemma {:induction false} JoinedMeans(o: Original, n: nat)
    requires n <= |o.fragments|
    ensures var items := seq(n, i requires 0 <= i < n => o.fragments[i].items);
            var texts := seq(n, i requires 0 <= i < n => if o.fragments[i].text.Some? then o.fragments[i].text.value
                else []);
            Joined(o, n) == ExtendedEvent(o.language, Flatten(items), Flatten(texts))
  {
    if n > 0 {
      JoinedMeans(o, n - 1);
      var items := seq(n, i requires 0 <= i < n => o.fragments[i].items);
      var texts := seq(n, i requires 0 <= i < n => if o.fragments[i].text.Some? then o.fragments[i].text.value else []);
      var items', texts' := items[..n - 1], texts[..n - 1];
      assert items' == seq(n - 1, i requires 0 <= i < n - 1 => o.fragments[i].items);
      assert texts' == seq(n - 1,
          i requires 0 <= i < n - 1 => if o.fragments[i].text.Some? then o.fragments[i].text.value else []);
      assert items == items' + [items[n - 1]] && texts == texts' + [texts[n - 1]];
      FlattenSnoc(items', items[n - 1]);
      FlattenSnoc(texts', texts[n - 1]);
    }
  }

  // ------------------------------------------------------------------
  // Any numbering
  // ------------------------------------------------------------------

  /** Descriptor j starts an event that is still under collection behind all of ds: it
      has number 0, no later one has, and none from there on is the last of its event. */
  ghost predicate Collecting(ds: seq<Descriptor>, j: nat) {
    && j < |ds| && ds[j].Extended? && ds[j].extended.number == 0
    && (forall k :: j < k < |ds| && ds[k].Extended? ==> ds[k].extended.number != 0)
    && (forall k :: j <= k < |ds| && ds[k].Extended? ==> ds[k].extended.number != ds[k].extended.last)
  }

  function ItemsFrom(ds: seq<Descriptor>, j: nat): seq<Item>
    requires j <= |ds|
    decreases |ds|
  {
    if j == |ds| then []
    else ItemsFrom(ds[..|ds| - 1], j) + if ds[|ds| - 1].Extended? then ds[|ds| - 1].extended.items else []
  }

  function TextFrom(ds: seq<Descriptor>, j: nat): Text
    requires j <= |ds|
    decreases |ds|
  {
    if j == |ds| then [] else TextFrom(ds[..|ds| - 1], j) + TextAt(ds[|ds| - 1])
  }

  function TextAt(d: Descriptor): Text {
    if d.Extended? && d.extended.text.Some? then d.extended.text.value else []
  }

  /** The event that descriptor j starts, with everything from there to the end. */
  ghost function EventFrom(ds: seq<Descriptor>, j: nat): ExtendedEvent
    requires j < |ds| && ds[j].Extended?
  {
    ExtendedEvent(ds[j].extended.language, ItemsFrom(ds, j), TextFrom(ds, j))
  }

  lemma {:induction false} CollectSnoc(a: seq<Descriptor>, d: Descriptor, open: Option<ExtendedEvent>,
      after: Option<ExtendedEvent>)
    requires after == OpenFrom(a, open)
    ensures Collect(a + [d], open) == Collect(a, open) + Collect([d], after)
    decreases |a|
  {
    if a == [] {
      assert a + [d] == [d];
    } else {
      assert (a + [d])[1..] == a[1..] + [d];
      if !a[0].Extended? {
        CollectSnoc(a[1..], d, open, after);
      } else {
        var e := Extend(open, a[0].extended);
        CollectSnoc(a[1..], d, if e.None? || a[0].extended.number == a[0].extended.last then None else e, after);
      }
    }
  }

  /** What is under collection behind ds, starting with what was. */
  function OpenFrom(ds: seq<Descriptor>, open: Option<ExtendedEvent>): Option<ExtendedEvent>
    decreases |ds|
  {
    if ds == [] then open
    else if !ds[0].Extended? then OpenFrom(ds[1..], open)
    else
      var e := Extend(open, ds[0].extended);
      OpenFrom(ds[1..], if e.None? || ds[0].extended.number == ds[0].extended.last then None else e)
  }

  lemma {:induction false} OpenFromSnoc(a: seq<Descriptor>, d: Descriptor, open: Option<ExtendedEvent>)
    ensures OpenFrom(a + [d], open) == OpenFrom([d], OpenFrom(a, open))
    decreases |a|
  {
    if a == [] {
      assert a + [d] == [d];
    } else {
      assert (a + [d])[1..] == a[1..] + [d];
      if !a[0].Extended? {
        OpenFromSnoc(a[1..], d, open);
      } else {
        var e := Extend(open, a[0].extended);
        OpenFromSnoc(a[1..], d, if e.None? || a[0].extended.number == a[0].extended.last then None else e);
      }
    }
  }

  lemma {:induction false} OpenOne(d: Descriptor, open: Option<ExtendedEvent>)
    ensures OpenFrom([d], open) ==
            if !d.Extended? then open
            else if d.extended.number == d.extended.last then None else Extend(open, d.extended)
  {
    assert [d][1..] == [];
  }

  lemma {:induction false} EventGrows(ds: seq<Descriptor>, d: Descriptor, j: nat)
    requires j < |ds| && ds[j].Extended?
    ensures var all := ds + [d];
            && all[..|ds|] == ds && all[j] == ds[j]
            && EventFrom(all, j) ==
               if d.Extended?
               then EventFrom(ds, j).(items := EventFrom(ds, j).items + d.extended.items,
                                      text := EventFrom(ds, j).text + TextOf(d.extended.text))
               else EventFrom(ds, j)
  {
    var all := ds + [d];
    assert all[..|all| - 1] == ds;
    var i, t := ItemsFrom(ds, j), TextFrom(ds, j);
    assert i + [] == i && t + [] == t;
  }

  lemma {:induction false} EventStarts(ds: seq<Descriptor>, d: Descriptor)
    requires d.Extended?
    ensures EventFrom(ds + [d], |ds|) == ExtendedEvent(d.extended.language, d.extended.items, TextOf(d.extended.text))
  {
    var all := ds + [d];
    assert all[..|all| - 1] == ds && all[|all| - 1] == d;
    assert ItemsFrom(ds, |ds|) == [] && TextFrom(ds, |ds|) == [];
    assert [] + d.extended.items == d.extended.items && [] + TextOf(d.extended.text) == TextOf(d.extended.text);
  }

  /** What is under collection is what the last number 0 started, with all since. */
  ghost predicate OpenIs(ds: seq<Descriptor>, open: Option<ExtendedEvent>) {
    if open.None? then forall j: nat :: !Collecting(ds, j)
    else exists j: nat :: Collecting(ds, j) && open.value == EventFrom(ds, j)
  }

  lemma {:induction false} CollectingGrows(ds: seq<Descriptor>, d: Descriptor, j: nat)
    ensures Collecting(ds + [d], j) <==>
            if j < |ds| then Collecting(ds, j)
                && (d.Extended? ==> d.extended.number != 0 && d.extended.number != d.extended.last)
            else j == |ds| && d.Extended? && d.extended.number == 0 && d.extended.number != d.extended.last
  {
    var all := ds + [d];
    assert all[|ds|] == d && forall k :: 0 <= k < |ds| ==> all[k] == ds[k];
  }

  lemma {:induction false} OpenStep(ds: seq<Descriptor>, d: Descriptor, open: Option<ExtendedEvent>)
    requires OpenIs(ds, open)
    ensures OpenIs(ds + [d], OpenFrom([d], open))
  {
    OpenOne(d, open);
    forall j: nat ensures Collecting(ds + [d], j) <==>
            if j < |ds| then Collecting(ds, j)
                && (d.Extended? ==> d.extended.number != 0 && d.extended.number != d.extended.last)
            else j == |ds| && d.Extended? && d.extended.number == 0 && d.extended.number != d.extended.last
    {
      CollectingGrows(ds, d, j);
    }
    if d.Extended? && d.extended.number == 0 && d.extended.number != d.extended.last {
      EventStarts(ds, d);
      assert Collecting(ds + [d], |ds|);
      var i, t := d.extended.items, TextOf(d.extended.text);
      assert [] + i == i && [] + t == t;
    } else if open.Some? && OpenFrom([d], open).Some? {
      var j: nat :| Collecting(ds, j) && open.value == EventFrom(ds, j);
      EventGrows(ds, d, j);
      assert Collecting(ds + [d], j);
    }
  }

  lemma {:induction false} OpenHolds(ds: seq<Descriptor>)
    ensures OpenIs(ds, OpenFrom(ds, None))
    decreases |ds|
  {
    if ds != [] {
      var n := |ds| - 1;
      OpenHolds(ds[..n]);
      OpenStep(ds[..n], ds[n], OpenFrom(ds[..n], None));
      OpenFromSnoc(ds[..n], ds[n], None);
      assert ds[..n] + [ds[n]] == ds;
    }
  }

  /** Descriptor d, behind ds, completes the event that j started, or itself when
      j == |ds|. */
  ghost predicate Completes(ds: seq<Descriptor>, d: Descriptor, j: nat) {
    && d.Extended? && d.extended.number == d.extended.last
    && if d.extended.number == 0 then j == |ds| else Collecting(ds, j)
  }

  /** For any numbering: the next descriptor adds an event exactly when it is a last
      fragment and an event is under collection, or it starts one itself; and then
      the event that the last number 0 started, with all items and texts since. */
  lemma {:induction false} NextDescriptor(ds: seq<Descriptor>, d: Descriptor)
    ensures (exists j: nat :: Completes(ds, d, j)) ==>
              exists j: nat :: Completes(ds, d, j) &&
                               Collect(ds + [d], None) == Collect(ds, None) + [EventFrom(ds + [d], j)]
    ensures (forall j: nat :: !Completes(ds, d, j)) ==> Collect(ds + [d], None) == Collect(ds, None)
  {
    var open := OpenFrom(ds, None);
    OpenHolds(ds);
    CollectSnoc(ds, d, None, open);
    assert [d][1..] == [];
    if d.Extended? && d.extended.number == d.extended.last {
      if d.extended.number == 0 {
        EventStarts(ds, d);
        assert Completes(ds, d, |ds|);
        var i, t := d.extended.items, TextOf(d.extended.text);
        assert [] + i == i && [] + t == t;
      } else if open.Some? {
        var j: nat :| Collecting(ds, j) && open.value == EventFrom(ds, j);
        EventGrows(ds, d, j);
        assert Completes(ds, d, j);
      }
    }
    assert Collect(ds, None) + [] == Collect(ds, None);
  }
}
