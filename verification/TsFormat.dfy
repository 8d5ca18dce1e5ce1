/** The 188-byte transport packet: sync byte and header fields
    (ISO/IEC 13818-1, section 2.4.3.2). */
module TsFormat {
  import opened Bytes

  const TS_SIZE := 188
  const SYNC: Byte := 0x47

  function GetPid(p: seq<Byte>): (pid: nat)
    requires |p| >= 3
    ensures pid < 0x2000
  {
    (p[1] as int % 32) * 256 + p[2] as int
  }

  predicate UnitStart(p: seq<Byte>)
    requires |p| >= 2
  {
    (p[1] / 64) % 2 == 1
  }

  predicate HasPayload(p: seq<Byte>)
    requires |p| >= 4
  {
    (p[3] / 16) % 2 == 1
  }

  function ContinuityCounter(p: seq<Byte>): nat
    requires |p| >= 4
  {
    p[3] % 16
  }

  // The setters work on one header byte each and keep its other bits.
  function WithPidHigh(b: Byte, pid: nat): Byte { b - b % 32 + (pid / 256) % 32 }
  function WithUnitStart(b: Byte): Byte { if (b / 64) % 2 == 1 then b else b + 64 }
  function WithPayload(b: Byte): Byte { if (b / 16) % 2 == 1 then b else b + 16 }
  function WithCc(b: Byte, cc: nat): Byte { b - b % 16 + cc % 16 }

  /** The stream cut into whole packets; an incomplete tail is left over. */
  function Frames(s: seq<Byte>): seq<seq<Byte>> {
    seq(|s| / TS_SIZE, i requires 0 <= i < |s| / TS_SIZE => s[TS_SIZE * i..TS_SIZE * i + TS_SIZE])
  }

  function Tail(s: seq<Byte>): seq<Byte> {
    s[TS_SIZE * (|s| / TS_SIZE)..]
  }

  /** Every packet position holds a sync byte. */
  ghost predicate Aligned(s: seq<Byte>) {
    forall k: nat :: TS_SIZE * k < |s| ==> s[TS_SIZE * k] == SYNC
  }
}
