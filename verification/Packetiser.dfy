/** Cutting a PSI section into transport packets (ISO/IEC 13818-1, sections
    2.4.3.2 and 2.4.4) and getting it back through the packet reader. */
module Packetiser {
  import opened Bytes
  import opened TsFormat
  import opened ReadTs

  /** A section length as the 16-bit size the code works with. */
  function Size16(n: nat): nat { n % 0x1_0000 }

  /** The packet count, held in eight bits. */
  function PacketCount(n: nat): nat { ((Size16(n) + 184) / 184) % 0x100 }

  /** Byte k of the payload of all packets together: the pointer field, the
      section, then stuffing. */
  function PayloadByte(section: seq<Byte>, k: nat): Byte {
    if k == 0 then 0 else if k - 1 < |section| then section[k - 1] else 0xff
  }

  /** Byte j of packet i. */
  function PacketByte(pid: nat, section: seq<Byte>, i: nat, j: nat): Byte {
    if j == 0 then SYNC
    else if j == 1 then (if i == 0 then 64 else 0) + (pid / 256) % 32
    else if j == 2 then pid % 256
    else if j == 3 then 16 + i % 16
    else PayloadByte(section, 184 * i + (j - 4))
  }

  function PacketAt(pid: nat, section: seq<Byte>, i: nat): (p: seq<Byte>)
    ensures |p| == TS_SIZE
  {
    seq(TS_SIZE, j requires 0 <= j < TS_SIZE => PacketByte(pid, section, i, j))
  }

  function Packets(pid: nat, section: seq<Byte>, count: nat): (ps: seq<seq<Byte>>)
    ensures |ps| == count
  {
    seq(count, i requires 0 <= i < count => PacketAt(pid, section, i))
  }

  /** The packet bytes as one buffer. */
  function PacketBytes(pid: nat, section: seq<Byte>, count: nat): (s: seq<Byte>)
    ensures |s| == TS_SIZE * count
  {
    seq(TS_SIZE * count, q requires 0 <= q < TS_SIZE * count => PacketByte(pid, section, q / TS_SIZE, q % TS_SIZE))
  }

  /** What the packetiser makes of a section that may be missing. */
  function TableBytes(pid: nat, section: Option<seq<Byte>>): seq<Byte> {
    if section.None? then []
        else PacketBytes(pid, section.value[..Size16(|section.value|)], PacketCount(|section.value|))
  }

  function TableCount(section: Option<seq<Byte>>): (n: nat)
    ensures n < 0x100
  {
    if section.None? then 0 else PacketCount(|section.value|)
  }

  lemma {:induction false} TableLength(pid: nat, section: Option<seq<Byte>>)
    ensures |TableBytes(pid, section)| == TS_SIZE * TableCount(section)
  {
  }

  /** The first `done` bytes of the buffer are what the packets hold there. */
  ghost predicate Written(b: seq<Byte>, done: int, pid: nat, section: seq<Byte>) {
    done <= |b| && forall q {:trigger b[q]} :: 0 <= q < done ==>
        b[q] == PacketByte(pid, section, q / TS_SIZE, q % TS_SIZE)
  }

  lemma {:induction false} InPacket(i: nat, j: nat)
    requires j < TS_SIZE
    ensures (TS_SIZE * i + j) / TS_SIZE == i && (TS_SIZE * i + j) % TS_SIZE == j
  {
  }

  /** Bytes of packet i that continue a written buffer. */
  lemma {:induction false} HeaderWritten(before: seq<Byte>, after: seq<Byte>, current: nat, pid: nat, i: nat,
      section: seq<Byte>, n: nat)
    requires Written(before, current, pid, section) && |after| == |before| && current == TS_SIZE * i && n <= TS_SIZE
             && current + n <= |after|
    requires forall q :: 0 <= q < current ==> after[q] == before[q]
    requires forall q :: current <= q < current + n ==> after[q] == PacketByte(pid, section, i, q - current)
    ensures Written(after, current + n, pid, section)
  {
    forall q | 0 <= q < current + n
      ensures after[q] == PacketByte(pid, section, q / TS_SIZE, q % TS_SIZE)
    {
      if q >= current {
        InPacket(i, q - current);
      }
    }
  }

  /** The four header bytes of packet i, set one field at a time. */
  method WriteHeader(buffer: array<Byte>, current: nat, pid: nat, i: nat, first: bool, ghost section: seq<Byte>)
    requires current == TS_SIZE * i && current + TS_SIZE <= buffer.Length && first == (i == 0)
    requires Written(buffer[..], current, pid, section)
    modifies buffer
    ensures Written(buffer[..], current + (if first then 5 else 4), pid, section)
  {
    ghost var before := buffer[..];
    buffer[current], buffer[current + 1], buffer[current + 2], buffer[current + 3] := SYNC, 0, 0, 0;
    buffer[current + 1] := WithPidHigh(buffer[current + 1], pid);
    buffer[current + 2] := pid % 256;
    buffer[current + 3] := WithPayload(buffer[current + 3]);
    buffer[current + 3] := WithCc(buffer[current + 3], i);
    if first {
      buffer[current + 1] := WithUnitStart(buffer[current + 1]);
      buffer[current + 4] := 0;
    }
    assert forall q :: 0 <= q < current ==> buffer[q] == before[q];
    HeaderWritten(before, buffer[..], current, pid, i, section, if first then 5 else 4);
  }

  /** The payload bytes [pdata, pdata + n) of the section, copied behind the header. */
  method CopyPayload(buffer: array<Byte>, current: nat, section: seq<Byte>, pdata: nat, n: nat, pid: nat, ghost i: nat)
    requires TS_SIZE * i + 4 <= current && current + n <= TS_SIZE * (i + 1) <= buffer.Length
    requires pdata + n <= |section| && pdata + 1 == 184 * i + (current - TS_SIZE * i - 4)
    requires Written(buffer[..], current, pid, section)
    modifies buffer
    ensures Written(buffer[..], current + n, pid, section)
  {
    ghost var before := buffer[..];
    forall k | 0 <= k < n {
      buffer[current + k] := section[pdata + k];
    }
    forall q | 0 <= q < current + n
      ensures buffer[q] == PacketByte(pid, section, q / TS_SIZE, q % TS_SIZE)
    {
      if q < current {
        assert buffer[q] == before[q];
      } else {
        assert q / TS_SIZE == i && q % TS_SIZE == q - TS_SIZE * i;
      }
    }
  }

  /** The packets of a section; nothing for a missing one. */
  method SectionToTsPackets(pid: nat, section: Option<seq<Byte>>) returns (packets: array?<Byte>, count: nat)
    ensures section.None? ==> packets == null
    ensures section.Some? ==> packets != null && fresh(packets) && packets[..] == TableBytes(pid, section)
    ensures count == TableCount(section)
  {
    if section.None? {
      return null, 0;
    }
    var size := |section.value| % 0x1_0000;
    count := ((size + 184) / 184) % 0x100;
    var data := section.value[..size];
    var buffer := new Byte[TS_SIZE * count](_ => 0);
    var current, pdata, leftToWrite, first := 0, 0, size, true;
    var i := 0;
    while i < count
      invariant 0 <= i <= count && first == (i == 0)
      invariant current == TS_SIZE * i
      invariant pdata == (if i == 0 then 0 else 184 * i - 1) && pdata + leftToWrite == size
      invariant Written(buffer[..], current, pid, data)
    {
      WriteHeader(buffer, current, pid, i, first, data);
      if first {
        current := current + 5;
        if leftToWrite < 183 {
          CopyPayload(buffer, current, data, pdata, leftToWrite, pid, i);
          current := current + leftToWrite;
          pdata := pdata + leftToWrite;
          break;
        } else {
          CopyPayload(buffer, current, data, pdata, 183, pid, i);
          pdata, current, leftToWrite := pdata + 183, current + 183, leftToWrite - 183;
        }
        first := false;
      } else {
        current := current + 4;
        if leftToWrite < 184 {
          CopyPayload(buffer, current, data, pdata, leftToWrite, pid, i);
          current := current + leftToWrite;
          pdata := pdata + leftToWrite;
          break;
        } else {
          CopyPayload(buffer, current, data, pdata, 184, pid, i);
          pdata, current, leftToWrite := pdata + 184, current + 184, leftToWrite - 184;
        }
      }
      i := i + 1;
    }
    // Either the buffer is full or only the last packet is left to stuff.
    assert current == buffer.Length || (i + 1 == count && pdata == size && current == TS_SIZE * i + 5 + size - 184 * i);
    while current < buffer.Length
      invariant current <= buffer.Length
      invariant Written(buffer[..], current, pid, data)
      invariant current == buffer.Length
                || (i + 1 == count && current - TS_SIZE * i - 4 + 184 * i > size && current >= TS_SIZE * i + 4)
    {
      assert current / TS_SIZE == i && current % TS_SIZE == current - TS_SIZE * i;
      ghost var before := buffer[..];
      buffer[current] := 0xff;
      assert buffer[..] == before[current := 0xff];
      current := current + 1;
    }
    packets := buffer;
  }

  // ------------------------------------------------------------------
  // Properties of the packets
  // ------------------------------------------------------------------

  /** Packet i of a table on a PID: header fields as the standard asks. */
  predicate IsPacket(p: seq<Byte>, pid: nat, i: nat) {
    && |p| == TS_SIZE && p[0] == SYNC && GetPid(p) == pid && (UnitStart(p) <==> i == 0)
    && HasPayload(p) && ContinuityCounter(p) == i % 16
  }

  lemma {:induction false} PacketFields(pid: nat, section: seq<Byte>, i: nat)
    requires pid < 0x2000
    ensures IsPacket(PacketAt(pid, section, i), pid, i)
  {
    var p := PacketAt(pid, section, i);
    assert p[1] == (if i == 0 then 64 else 0) + pid / 256;
  }

  /** The buffer is aligned and its frames are the packets. */
  lemma {:induction false} BytesAreFrames(pid: nat, section: seq<Byte>, count: nat)
    ensures var s := PacketBytes(pid, section, count);
            Aligned(s) && Frames(s) == Packets(pid, section, count) && Tail(s) == []
  {
    var s := PacketBytes(pid, section, count);
    forall k: nat | TS_SIZE * k < |s| ensures s[TS_SIZE * k] == SYNC {
      assert (TS_SIZE * k) % TS_SIZE == 0;
    }
    forall i | 0 <= i < count
      ensures s[TS_SIZE * i..TS_SIZE * i + TS_SIZE] == PacketAt(pid, section, i)
    {
      forall j | 0 <= j < TS_SIZE
        ensures s[TS_SIZE * i + j] == PacketByte(pid, section, i, j)
      {
        assert (TS_SIZE * i + j) / TS_SIZE == i && (TS_SIZE * i + j) % TS_SIZE == j;
      }
    }
    assert Frames(s) == Packets(pid, section, count);
  }

  /** The payloads of the packets, joined. */
  function JoinedPayload(ps: seq<seq<Byte>>): seq<Byte> {
    if ps == [] then []
    else JoinedPayload(ps[..|ps| - 1]) + (if |ps[|ps| - 1]| < 4 then [] else ps[|ps| - 1][4..])
  }

  lemma {:induction false} JoinedPackets(pid: nat, section: seq<Byte>, count: nat)
    ensures var j := JoinedPayload(Packets(pid, section, count));
            |j| == 184 * count && forall k :: 0 <= k < |j| ==> j[k] == PayloadByte(section, k)
  {
    if count > 0 {
      var ps := Packets(pid, section, count);
      assert ps[..count - 1] == Packets(pid, section, count - 1);
      JoinedPackets(pid, section, count - 1);
      assert ps[count - 1] == PacketAt(pid, section, count - 1);
    }
  }

  /** The section as a receiver recovers it: payloads joined behind the pointer byte. */
  ghost predicate Recovers(ps: seq<seq<Byte>>, section: seq<Byte>) {
    var j := JoinedPayload(ps);
    && |j| >= 1 + |section| && j[0] == 0
    && j[1..1 + |section|] == section
    && forall k :: 1 + |section| <= k < |j| ==> j[k] == 0xff
  }

  /** The packets carry the whole section exactly when it has at most 46919
      bytes; the 8-bit count (and, from 65536 on, the 16-bit size) drops part of
      any longer one. */
  lemma {:induction false} CompleteIff(pid: nat, section: seq<Byte>)
    ensures var ps := Packets(pid, section[..Size16(|section|)], PacketCount(|section|));
            Recovers(ps, section) <==> |section| <= 46919
    ensures |section| <= 46919 ==> PacketCount(|section|) == (|section| + 1 + 183) / 184
  {
    var data, count := section[..Size16(|section|)], PacketCount(|section|);
    JoinedPackets(pid, data, count);
    if |section| <= 46919 {
      assert data == section && count == (|section| + 184) / 184;
      assert 184 * count >= 1 + |section|;
    } else {
      assert 184 * count <= 184 * 255;
    }
  }

  /** A packetised section comes back through the packet reader, however the
      bytes are cut into chunks. */
  lemma {:induction false} RoundTrip(pid: nat, section: seq<Byte>, chunks: seq<seq<Byte>>)
    requires pid < 0x2000 && |section| <= 46919
    requires Flatten(chunks) == TableBytes(pid, Some(section))
    ensures var ps := PushAll(AcceptAll(), NEW_FRAMER, chunks).delivered;
            && |ps| == (|section| + 1 + 183) / 184
            && Recovers(ps, section)
            && forall i :: 0 <= i < |ps| ==> IsPacket(ps[i], pid, i)
  {
    var count := PacketCount(|section|);
    assert section[..Size16(|section|)] == section;
    BytesAreFrames(pid, section, count);
    assert [] + Flatten(chunks) == Flatten(chunks);
    ChunkingIndependent(NEW_FRAMER, [], chunks);
    CompleteIff(pid, section);
    assert PushAll(AcceptAll(), NEW_FRAMER, chunks).delivered == Packets(pid, section, count);
    forall i | 0 <= i < count ensures IsPacket(PacketAt(pid, section, i), pid, i) {
      PacketFields(pid, section, i);
    }
  }
}
