/** MJD and BCD times of the event tables (ETSI EN 300 468, section 6.2 and
    Annex C) in the code's 64-bit arithmetic. */
module Dates {
  const TWO64 := 0x1_0000_0000_0000_0000
  const UNIX_EPOCH_MJD := 40587

  /** The hexadecimal digit k places from the right. */
  function Nibble(bcd: nat, k: nat): (n: nat)
    ensures n < 16
  {
    if k == 0 then bcd % 16 else Nibble(bcd / 16, k - 1)
  }

  function BcdHours(bcd: nat): nat { 10 * Nibble(bcd, 5) + Nibble(bcd, 4) }
  function BcdMinutes(bcd: nat): nat { 10 * Nibble(bcd, 3) + Nibble(bcd, 2) }
  function BcdSeconds(bcd: nat): nat { 10 * Nibble(bcd, 1) + Nibble(bcd, 0) }

  function ConvertBcdTime(bcd: nat): nat { 3600 * BcdHours(bcd) + 60 * BcdMinutes(bcd) + BcdSeconds(bcd) }

  /** A bit pattern read as a signed 64-bit number. */
  function Signed64(u: int): int { (u + TWO64 / 2) % TWO64 - TWO64 / 2 }

  /** The code's expression: unsigned subtraction, product and sum, then a signed result. */
  function ConvertDatetime(datetime: nat): int
    requires datetime < TWO64
  {
    var days := (datetime / 0x100_0000 - UNIX_EPOCH_MJD) % TWO64;
    Signed64(((days * 86400) % TWO64 + ConvertBcdTime(datetime % 0x100_0000)) % TWO64)
  }

  /** The date as broadcast: day number and six BCD digits. */
  function Encode(mjd: nat, h: nat, m: nat, s: nat): nat
    requires h < 24 && m < 60 && s < 60
  {
    mjd * 0x100_0000 + (h / 10 * 16 + h % 10) * 0x1_0000 + (m / 10 * 16 + m % 10) * 0x100 + (s / 10 * 16 + s % 10)
  }

  lemma {:induction false} NibbleStep(rest: nat, digit: nat, k: nat)
    requires digit < 16
    ensures Nibble(16 * rest + digit, 0) == digit && Nibble(16 * rest + digit, k + 1) == Nibble(rest, k)
  {
    assert (16 * rest + digit) / 16 == rest && (16 * rest + digit) % 16 == digit;
  }

  /** The six digits, written behind one another, are read back. */
  lemma {:induction false} DigitsRead(n5: nat, n4: nat, n3: nat, n2: nat, n1: nat, n0: nat)
    requires n5 < 16 && n4 < 16 && n3 < 16 && n2 < 16 && n1 < 16 && n0 < 16
    ensures var v := 16 * (16 * (16 * (16 * (16 * n5 + n4) + n3) + n2) + n1) + n0;
            && Nibble(v, 0) == n0 && Nibble(v, 1) == n1 && Nibble(v, 2) == n2
            && Nibble(v, 3) == n3 && Nibble(v, 4) == n4 && Nibble(v, 5) == n5
  {
    var v4 := 16 * n5 + n4;
    var v3 := 16 * v4 + n3;
    var v2 := 16 * v3 + n2;
    var v1 := 16 * v2 + n1;
    NibbleStep(n5, n4, 0);
    forall k: nat | k < 2 ensures Nibble(v3, k + 1) == Nibble(v4, k) { NibbleStep(v4, n3, k); }
    forall k: nat | k < 3 ensures Nibble(v2, k + 1) == Nibble(v3, k) { NibbleStep(v3, n2, k); }
    forall k: nat | k < 4 ensures Nibble(v1, k + 1) == Nibble(v2, k) { NibbleStep(v2, n1, k); }
    var v := 16 * v1 + n0;
    forall k: nat | k < 5 ensures Nibble(v, k + 1) == Nibble(v1, k) { NibbleStep(v1, n0, k); }
    NibbleStep(v4, n3, 0);
    NibbleStep(v3, n2, 0);
    NibbleStep(v2, n1, 0);
    NibbleStep(v1, n0, 0);
    assert Nibble(v, 5) == Nibble(v1, 4) == Nibble(v2, 3) == Nibble(v3, 2) == Nibble(v4, 1) == Nibble(n5, 0);
    assert Nibble(v, 4) == Nibble(v1, 3) == Nibble(v2, 2) == Nibble(v3, 1) == Nibble(v4, 0);
    assert Nibble(v, 3) == Nibble(v1, 2) == Nibble(v2, 1) == Nibble(v3, 0);
  }

  lemma {:induction false} BcdDigits(h: nat, m: nat, s: nat)
    requires h < 24 && m < 60 && s < 60
    ensures ConvertBcdTime(Encode(0, h, m, s)) == 3600 * h + 60 * m + s
  {
    DigitsRead(h / 10, h % 10, m / 10, m % 10, s / 10, s % 10);
    assert Encode(0, h, m, s)
        == 16 * (16 * (16 * (16 * (16 * (h / 10) + h % 10) + m / 10) + m % 10) + s / 10) + s % 10;
  }

  /** The wrap-around of the subtraction is undone: for every 64-bit value the
      result is the day difference in seconds plus the time of day, also for
      days before 1970. */
  lemma {:induction false} DatetimeIsExact(datetime: nat)
    requires datetime < TWO64
    ensures ConvertDatetime(datetime) == (datetime / 0x100_0000 - UNIX_EPOCH_MJD) * 86400
            + ConvertBcdTime(datetime % 0x100_0000)
  {
    var d := datetime / 0x100_0000 - UNIX_EPOCH_MJD;
    var t := ConvertBcdTime(datetime % 0x100_0000);
    DayInRange(datetime);
    WrapsBack(d, t);
  }

  lemma {:induction false} WrapsBack(d: int, t: nat)
    requires -UNIX_EPOCH_MJD <= d < 0x100_0000_0000 && t < 0x10_0000
    ensures Signed64((((d % TWO64) * 86400) % TWO64 + t) % TWO64) == d * 86400 + t
  {
    DayWraps(d);
    SignedRecovers(d * 86400, t);
  }

  lemma {:induction false} DayInRange(datetime: nat)
    requires datetime < TWO64
    ensures -UNIX_EPOCH_MJD <= datetime / 0x100_0000 - UNIX_EPOCH_MJD < 0x100_0000_0000
    ensures ConvertBcdTime(datetime % 0x100_0000) < 0x10_0000
  {
  }

  /** A product with a wrapped factor wraps to the same value. */
  lemma {:induction false} DayWraps(d: int)
    ensures ((d % TWO64) * 86400) % TWO64 == (d * 86400) % TWO64
  {
    var q := d / TWO64;
    assert d * 86400 == (d % TWO64) * 86400 + (q * 86400) * TWO64;
    AddMultiple((d % TWO64) * 86400, q * 86400);
  }

  lemma {:induction false} AddMultiple(x: int, k: int)
    ensures (x + k * TWO64) % TWO64 == x % TWO64
  {
    var y := x + k * TWO64;
    assert y - y % TWO64 == (y / TWO64) * TWO64 && x - x % TWO64 == (x / TWO64) * TWO64;
    assert (y % TWO64) - (x % TWO64) == (k + x / TWO64 - y / TWO64) * TWO64;
  }

  lemma {:induction false} SignedRecovers(x: int, t: nat)
    requires -0x1_0000_0000_0000 < x < 0x200_0000_0000_0000 && t < 0x10_0000
    ensures Signed64(((x % TWO64) + t) % TWO64) == x + t
  {
    assert x % TWO64 == if x < 0 then x + TWO64 else x;
  }

  /** A broadcast date decodes to seconds since 1970. */
  lemma {:induction false} DecodesBroadcastDate(mjd: nat, h: nat, m: nat, s: nat)
    requires h < 24 && m < 60 && s < 60 && mjd < 0x100_0000_0000
    ensures Encode(mjd, h, m, s) < TWO64
    ensures ConvertDatetime(Encode(mjd, h, m, s)) == (mjd - UNIX_EPOCH_MJD) * 86400 + 3600 * h + 60 * m + s
  {
    var low := Encode(0, h, m, s);
    assert low < 0x100_0000;
    assert Encode(mjd, h, m, s) == mjd * 0x100_0000 + low;
    assert Encode(mjd, h, m, s) / 0x100_0000 == mjd && Encode(mjd, h, m, s) % 0x100_0000 == low;
    DatetimeIsExact(Encode(mjd, h, m, s));
    BcdDigits(h, m, s);
  }

  /** epg_event_compare_time for two present events. */
  function CompareTime(a: int, b: int): int { if a < b then -1 else if a > b then 1 else 0 }

  /** Earlier in (day, hour, minute, second). */
  predicate Before(m1: nat, h1: nat, n1: nat, s1: nat, m2: nat, h2: nat, n2: nat, s2: nat) {
    m1 < m2 || (m1 == m2 && (h1 < h2 || (h1 == h2 && (n1 < n2 || (n1 == n2 && s1 < s2)))))
  }

  /** Events are ordered as broadcast: comparing start times compares the
      broadcast fields, and equal times mean equal fields. */
  lemma {:induction false} OrderAsBroadcast(m1: nat, h1: nat, n1: nat, s1: nat, m2: nat, h2: nat, n2: nat, s2: nat)
    requires h1 < 24 && n1 < 60 && s1 < 60 && m1 < 0x100_0000_0000
    requires h2 < 24 && n2 < 60 && s2 < 60 && m2 < 0x100_0000_0000
    ensures Encode(m1, h1, n1, s1) < TWO64 && Encode(m2, h2, n2, s2) < TWO64
    ensures var c := CompareTime(ConvertDatetime(Encode(m1, h1, n1, s1)), ConvertDatetime(Encode(m2, h2, n2, s2)));
            && (c == -1 <==> Before(m1, h1, n1, s1, m2, h2, n2, s2))
            && (c == 1 <==> Before(m2, h2, n2, s2, m1, h1, n1, s1))
            && (c == 0 <==> m1 == m2 && h1 == h2 && n1 == n2 && s1 == s2)
  {
    DecodesBroadcastDate(m1, h1, n1, s1);
    DecodesBroadcastDate(m2, h2, n2, s2);
  }
}
