/** Merging scanned channels into the stored ones, in place. */
module ScanMerge {
  import opened Bytes


  /** Everything of a channel but its id, its key and its flags. */
  datatype Payload = Payload(
    nameRaw: string, name: string, provider: string, frequency: nat, parameter: string, polarization: nat,
    deliverySystem: nat, modulation: nat, rollOff: nat, signalSource: string, srate: nat, vpid: string, apid: string,
    tpid: nat, casid: nat, tid: nat, rid: nat)

  datatype Channel = Channel(id: nat, nid: nat, sid: nat, payload: Payload, dirty: bool, otherFlags: nat)

  predicate SameKey(a: Channel, b: Channel) { a.nid == b.nid && a.sid == b.sid }

  /** The comparator: 0 exactly for equal keys. */
  function CompareKeys(a: Channel, b: Channel): (c: int)
    ensures c == 0 <==> SameKey(a, b)
  {
    if a.nid == b.nid && a.sid == b.sid then 0
    else if a.nid > b.nid then 1
    else if a.nid < b.nid then -1
    else if a.sid > b.sid then 1
    else if a.sid < b.sid then -1
    else 1
  }

  const TRANSLATIONS: seq<(string, string)> :=
    [("S19E2", "S19.2E"), ("S23E5", "S23.E5"), ("S13E0", "S13E"), ("S28E2", "S28.2E"), ("S9E0", "S9.0E")]

  /** The channel's satellite is among the scanned ones, by the translation table. */
  predicate Scanned(c: Channel, satellites: seq<string>) {
    exists i :: 0 <= i < |TRANSLATIONS| && TRANSLATIONS[i].1 == c.payload.signalSource
        && TRANSLATIONS[i].0 in satellites
  }

  /** dst takes over what src has, but keeps id and flags. */
  function Updated(dst: Channel, src: Channel): Channel {
    src.(id := dst.id, dirty := dst.dirty, otherFlags := dst.otherFlags)
  }

  function Marked(c: Channel, satellites: seq<string>): Channel {
    c.(dirty := c.dirty || Scanned(c, satellites))
  }

  // ------------------------------------------------------------------
  // Key-based specification
  // ------------------------------------------------------------------

  /** The first entry of its key. */
  predicate FirstOfKey(stored: seq<Channel>, i: nat) {
    i < |stored| && forall j :: 0 <= j < i ==> !SameKey(stored[j], stored[i])
  }

  /** The last scanned entry with the key of c. */
  function LastScanned(scanned: seq<Channel>, c: Channel): (r: Option<Channel>)
    ensures r.Some? ==> SameKey(r.value, c)
  {
    if scanned == [] then None
    else if SameKey(scanned[|scanned| - 1], c) then Some(scanned[|scanned| - 1])
    else LastScanned(scanned[..|scanned| - 1], c)
  }

  /** What becomes of stored entry i. */
  function Merged(stored: seq<Channel>, i: nat, scanned: seq<Channel>, satellites: seq<string>): Channel
    requires i < |stored|
  {
    if FirstOfKey(stored, i) && LastScanned(scanned, stored[i]).Some?
    then Updated(stored[i], LastScanned(scanned, stored[i]).value).(dirty := false)
    else Marked(stored[i], satellites)
  }

  predicate HasKey(stored: seq<Channel>, c: Channel) {
    exists i :: 0 <= i < |stored| && SameKey(stored[i], c)
  }

  /** The scanned entries without a stored one, newest first. */
  function NewOnes(stored: seq<Channel>, scanned: seq<Channel>): seq<Channel> {
    if scanned == [] then []
    else
      var c := scanned[|scanned| - 1];
      (if HasKey(stored, c) then [] else [c]) + NewOnes(stored, scanned[..|scanned| - 1])
  }

  /** Every stored channel keeps its id and key; the first of a scanned key has the
      payload of the last scanned entry with that key and is clean; every other
      one keeps its payload and is dirty exactly when it was or its satellite was
      scanned. */
  lemma {:induction false} MergeMeaning(stored: seq<Channel>, i: nat, scanned: seq<Channel>, satellites: seq<string>)
    requires i < |stored|
    ensures var c, m := stored[i], Merged(stored, i, scanned, satellites);
            && m.id == c.id && SameKey(m, c) && m.otherFlags == c.otherFlags
            && (if FirstOfKey(stored, i) && HasKey(scanned, c)
                then !m.dirty && LastScanned(scanned, c).Some? && m.payload == LastScanned(scanned, c).value.payload
                else m.payload == c.payload && (m.dirty <==> c.dirty || Scanned(c, satellites)))
  {
    LastScannedIff(scanned, stored[i]);
  }

  lemma {:induction false} LastScannedIff(scanned: seq<Channel>, c: Channel)
    ensures LastScanned(scanned, c).Some? <==> HasKey(scanned, c)
    ensures LastScanned(scanned, c).Some? ==>
              exists k :: 0 <= k < |scanned| && scanned[k] == LastScanned(scanned, c).value &&
                          forall j :: k < j < |scanned| ==> !SameKey(scanned[j], c)
  {
    if scanned != [] {
      var before, last := scanned[..|scanned| - 1], scanned[|scanned| - 1];
      LastScannedIff(before, c);
      if SameKey(last, c) {
        assert scanned[|scanned| - 1] == last;
      } else if LastScanned(before, c).Some? {
        var k :| 0 <= k < |before| && before[k] == LastScanned(before, c).value &&
                 forall j :: k < j < |before| ==> !SameKey(before[j], c);
        assert scanned[k] == before[k] && SameKey(scanned[k], c);
        assert forall j :: k < j < |scanned| ==> if j == |before| then scanned[j] == last else scanned[j] == before[j];
      } else {
        assert forall i :: 0 <= i < |scanned| ==> if i == |before| then scanned[i] == last else scanned[i] == before[i];
      }
    }
  }

  /** The new rows are exactly the scanned channels without a stored key, as many
      times as they were scanned. */
  lemma {:induction false} NewOnesExact(stored: seq<Channel>, scanned: seq<Channel>, c: Channel)
    ensures multiset(NewOnes(stored, scanned))[c] == if HasKey(stored, c) then 0 else multiset(scanned)[c]
  {
    if scanned != [] {
      var before, last := scanned[..|scanned| - 1], scanned[|scanned| - 1];
      NewOnesExact(stored, before, c);
      assert scanned == before + [last];
    }
  }

  // ------------------------------------------------------------------
  // The merge
  // ------------------------------------------------------------------

  method IsScannedSatellite(c: Channel, satellites: seq<string>) returns (r: bool)
    ensures r <==> Scanned(c, satellites)
  {
    var source := c.payload.signalSource;
    if satellites == [] || source == "" {
      return false;
    }
    var i := 0;
    while i < |TRANSLATIONS|
      invariant 0 <= i <= |TRANSLATIONS|
      invariant forall j :: 0 <= j < i ==> TRANSLATIONS[j].1 != source
    {
      if TRANSLATIONS[i].1 == source {
        var k := 0;
        while k < |satellites|
          invariant 0 <= k <= |satellites| && TRANSLATIONS[i].0 !in satellites[..k]
        {
          if satellites[k] == TRANSLATIONS[i].0 {
            return true;
          }
          k := k + 1;
        }
        assert satellites[..k] == satellites;
        break;
      }
      i := i + 1;
    }
    assert forall j, k :: 0 <= j < k < |TRANSLATIONS| ==> TRANSLATIONS[j].1 != TRANSLATIONS[k].1;
    return false;
  }

  /** The first entry with the key of c. */
  method FindKey(list: array<Channel>, c: Channel) returns (r: Option<nat>)
    ensures r.Some? ==> r.value < list.Length && SameKey(list[r.value], c)
    ensures r.Some? ==> forall j :: 0 <= j < r.value ==> !SameKey(list[j], c)
    ensures r.None? ==> forall j :: 0 <= j < list.Length ==> !SameKey(list[j], c)
  {
    var i := 0;
    while i < list.Length
      invariant 0 <= i <= list.Length && forall j :: 0 <= j < i ==> !SameKey(list[j], c)
    {
      if CompareKeys(list[i], c) == 0 {
        return Some(i);
      }
      i := i + 1;
    }
    return None;
  }

  /** Marks what may have disappeared. */
  method MarkDirty(list: array<Channel>, satellites: seq<string>)
    modifies list
    ensures forall i :: 0 <= i < list.Length ==> list[i] == Marked(old(list[i]), satellites)
  {
    var i := 0;
    while i < list.Length
      invariant 0 <= i <= list.Length
      invariant forall k :: 0 <= k < i ==> list[k] == Marked(old(list[k]), satellites)
      invariant forall k :: i <= k < list.Length ==> list[k] == old(list[k])
    {
      var scanned := IsScannedSatellite(list[i], satellites);
      if scanned {
        list[i] := list[i].(dirty := true);
      }
      i := i + 1;
    }
  }

  /** One more scanned entry changes at most the first stored one of its key. */
  lemma {:induction false} MergedSnoc(stored: seq<Channel>, i: nat, scanned: seq<Channel>, c: Channel,
      satellites: seq<string>)
    requires i < |stored|
    ensures var before, after := Merged(stored, i, scanned, satellites), Merged(stored, i, scanned + [c], satellites);
            after == if FirstOfKey(stored, i) && SameKey(c, stored[i]) then Updated(before, c).(dirty := false)
                else before
  {
    assert (scanned + [c])[..|scanned|] == scanned;
  }

  /** The loop over the scanned channels. */
  method MergeScanned(list: array<Channel>, ghost stored: seq<Channel>, scanned: seq<Channel>,
      satellites: seq<string>) returns (added: seq<Channel>)
    requires list.Length == |stored| && forall i :: 0 <= i < list.Length ==> list[i] == Marked(stored[i], satellites)
    modifies list
    ensures forall i :: 0 <= i < list.Length ==> list[i] == Merged(stored, i, scanned, satellites)
    ensures added == NewOnes(stored, scanned)
  {
    added := [];
    var k := 0;
    assert scanned[..0] == [];
    while k < |scanned|
      invariant 0 <= k <= |scanned|
      invariant forall i :: 0 <= i < list.Length ==> list[i] == Merged(stored, i, scanned[..k], satellites)
      invariant added == NewOnes(stored, scanned[..k])
    {
      ghost var before := list[..];
      var c := scanned[k];
      forall i | 0 <= i < list.Length
        ensures SameKey(list[i], stored[i])
        ensures Merged(stored, i, scanned[..k] + [c], satellites)
                == if FirstOfKey(stored, i) && SameKey(c, stored[i]) then Updated(before[i], c).(dirty := false)
                    else before[i]
      {
        MergedSnoc(stored, i, scanned[..k], c, satellites);
      }
      assert scanned[..k + 1] == scanned[..k] + [c];
      assert scanned[..k + 1][..k] == scanned[..k];
      var m := FindKey(list, c);
      if m.Some? {
        list[m.value] := Updated(list[m.value], c);
        list[m.value] := list[m.value].(dirty := false);
        assert SameKey(stored[m.value], c);
        assert FirstOfKey(stored, m.value) by {
          forall j | 0 <= j < m.value ensures !SameKey(stored[j], stored[m.value]) {
            assert !SameKey(before[j], c);
          }
        }
        forall i | 0 <= i < list.Length && i != m.value ensures !(FirstOfKey(stored, i) && SameKey(c, stored[i])) {
          if i < m.value {
            assert !SameKey(before[i], c);
          }
        }
      } else {
        assert !HasKey(stored, c) by {
          forall i | 0 <= i < |stored| ensures !SameKey(stored[i], c) {
            assert !SameKey(before[i], c);
          }
        }
        added := [c] + added;
      }
      k := k + 1;
    }
    assert scanned[..k] == scanned;
  }

  /** Reads the stored channels (newest first), merges, and gives what is written
      back: all stored ones, then the new ones. Nothing happens without satellites. */
  method UpdateChannels(database: seq<Channel>, scanned: seq<Channel>, satellites: seq<string>)
      returns (written: seq<Channel>)
    ensures satellites == [] ==> written == []
    ensures satellites != [] ==>
              var stored := seq(|database|, i requires 0 <= i < |database| => database[|database| - 1 - i]);
              && |written| == |stored| + |NewOnes(stored, scanned)|
              && (forall i :: 0 <= i < |stored| ==> written[i] == Merged(stored, i, scanned, satellites))
              && written[|stored|..] == NewOnes(stored, scanned)
  {
    if satellites == [] {
      return [];
    }
    var list := new Channel[|database|](i requires 0 <= i < |database| => database[|database| - 1 - i]);
    ghost var stored := list[..];
    assert stored == seq(|database|, i requires 0 <= i < |database| => database[|database| - 1 - i]);
    MarkDirty(list, satellites);
    var added := MergeScanned(list, stored, scanned, satellites);
    written := list[..] + added;
  }

  /** The satellites of the translation table, one by one. */
  lemma {:induction false} ScannedIff(c: Channel, satellites: seq<string>)
    ensures Scanned(c, satellites) <==>
            || (c.payload.signalSource == "S19.2E" && "S19E2" in satellites)
            || (c.payload.signalSource == "S23.E5" && "S23E5" in satellites)
            || (c.payload.signalSource == "S13E" && "S13E0" in satellites)
            || (c.payload.signalSource == "S28.2E" && "S28E2" in satellites)
            || (c.payload.signalSource == "S9.0E" && "S9E0" in satellites)
  {
    assert TRANSLATIONS[0] == ("S19E2", "S19.2E") && TRANSLATIONS[1] == ("S23E5", "S23.E5");
    assert TRANSLATIONS[2] == ("S13E0", "S13E") && TRANSLATIONS[3] == ("S28E2", "S28.2E");
    assert TRANSLATIONS[4] == ("S9E0", "S9.0E");
  }
}
