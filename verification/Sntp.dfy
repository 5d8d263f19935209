/** The SNTP reference clock: timestamps, clock offset and the update filter (RFC 4330). */
module Sntp {
  import opened Common

  const OFFSET_1900_TO_1970 := 2208988800
  const TWO32 := 0x1_0000_0000
  const UNSET := -1
  const TIMESTAMP_SIZE := 8

  // ---------------------------------------------------------------- timestamps

  function Byte(x: int, shift: int): byte
    requires shift > 0
  {
    (x / shift) % 256
  }

  function NtpSeconds(time: int): int
  {
    TruncDiv(time, 1000) + OFFSET_1900_TO_1970
  }

  function NtpFraction(time: int): int
  {
    TruncDiv(TruncMod(time, 1000) * TWO32, 1000)
  }

  /** Seconds, then the fraction with its low byte replaced by a random one. */
  function Encoded(time: int, random: byte): seq<byte>
  {
    var s, f := NtpSeconds(time), NtpFraction(time);
    [Byte(s, 0x100_0000), Byte(s, 0x1_0000), Byte(s, 0x100), Byte(s, 1),
     Byte(f, 0x100_0000), Byte(f, 0x1_0000), Byte(f, 0x100), random]
  }

  function Read32(buffer: seq<byte>, offset: nat): nat
    requires offset + 4 <= |buffer|
  {
    0x1_0000 * U16(buffer[offset], buffer[offset + 1]) + U16(buffer[offset + 2], buffer[offset + 3])
  }

  function Millis(fraction: int): int
  {
    fraction * 1000 / TWO32
  }

  function ReadTimeStamp(buffer: seq<byte>, offset: nat): int
    requires offset + TIMESTAMP_SIZE <= |buffer|
  {
    (Read32(buffer, offset) - OFFSET_1900_TO_1970) * 1000 + Millis(Read32(buffer, offset + 4))
  }

  method WriteTimeStamp(buffer: array<byte>, offset: nat, time: int, random: byte)
    requires offset + TIMESTAMP_SIZE <= buffer.Length
    modifies buffer
    ensures forall i :: 0 <= i < TIMESTAMP_SIZE ==> buffer[offset + i] == Encoded(time, random)[i]
    ensures forall i :: 0 <= i < buffer.Length && !(offset <= i < offset + TIMESTAMP_SIZE) ==>
      buffer[i] == old(buffer[i])
  {
    var seconds := NtpSeconds(time);
    var fraction := NtpFraction(time);
    buffer[offset] := Byte(seconds, 0x100_0000);
    buffer[offset + 1] := Byte(seconds, 0x1_0000);
    buffer[offset + 2] := Byte(seconds, 0x100);
    buffer[offset + 3] := Byte(seconds, 1);
    buffer[offset + 4] := Byte(fraction, 0x100_0000);
    buffer[offset + 5] := Byte(fraction, 0x1_0000);
    buffer[offset + 6] := Byte(fraction, 0x100);
    buffer[offset + 7] := random;
  }

  lemma FourBytes(x: int)
    ensures 0x1_0000 * U16(Byte(x, 0x100_0000), Byte(x, 0x1_0000)) + U16(Byte(x, 0x100), Byte(x, 1)) == x % TWO32
  {
    var a, b, c := x / 0x100, x / 0x1_0000, x / 0x100_0000;
    assert b == a / 256 && c == b / 256;
    assert x == 256 * a + x % 256 && a == 256 * b + a % 256 && b == 256 * c + b % 256;
    assert c == 256 * (c / 256) + c % 256;
    assert x / 1 == x;
  }

  /** Seconds that the 32-bit field holds. */
  predicate InEra(time: int)
  {
    0 <= NtpSeconds(time) < TWO32
  }

  lemma LowByte(x: int)
    ensures Byte(x, 1) == x % 256
  {
    assert x / 1 == x;
  }

  /** The 32 bits of a fraction with the low byte replaced. */
  function Replaced(f: int, random: byte): int
  {
    f % TWO32 - f % 256 + random
  }

  lemma ReadBytes(time: int, random: byte)
    ensures Read32(Encoded(time, random), 0) == NtpSeconds(time) % TWO32
    ensures Read32(Encoded(time, random), 4) == Replaced(NtpFraction(time), random)
  {
    FourBytes(NtpSeconds(time));
    FourBytes(NtpFraction(time));
    LowByte(NtpFraction(time));
  }

  lemma SecondsFit(time: int)
    requires InEra(time)
    ensures NtpSeconds(time) % TWO32 == NtpSeconds(time)
  {
  }

  lemma ReadBack(time: int, random: byte)
    requires InEra(time)
    ensures ReadTimeStamp(Encoded(time, random), 0) ==
            TruncDiv(time, 1000) * 1000 + Millis(Replaced(NtpFraction(time), random))
  {
    ReadBytes(time, random);
    SecondsFit(time);
  }

  lemma ScaledFloor(g: int, ms: int)
    requires ms * TWO32 <= g * 1000 < (ms + 1) * TWO32
    ensures Millis(g) == ms
  {
    DivModUnique(g * 1000, ms, g * 1000 - ms * TWO32, TWO32);
  }

  /** The fraction is exact for the multiples of 125 ms alone, and then ends in a zero byte. */
  lemma ExactFraction(ms: int, f: int, rest: int)
    requires ms * TWO32 == f * 1000 + rest && 0 <= rest < 1000
    ensures rest == 0 <==> ms % 125 == 0
    ensures rest == 0 ==> f % 256 == 0
  {
    if ms % 125 == 0 {
      EighthsAreExact(ms / 125, f, rest);
    } else if rest == 0 {
      ExactIsEighths(ms, f, 98 * (f - 4294967 * ms) - 29 * ms);
    }
  }

  lemma EighthsAreExact(k: int, f: int, rest: int)
    requires 125 * k * TWO32 == f * 1000 + rest && 0 <= rest < 1000
    ensures rest == 0 && f % 256 == 0
  {
    assert 1000 * (k * 0x2000_0000 - f) == rest;
    assert f == 256 * (k * 0x20_0000);
  }

  lemma ExactIsEighths(ms: int, f: int, k: int)
    requires ms * TWO32 == f * 1000 && k == 98 * (f - 4294967 * ms) - 29 * ms
    ensures ms == 125 * k && ms % 125 == 0
  {
    assert 37 * ms == 125 * (f - 4294967 * ms);
    assert ms == 125 * k;
  }

  /** What is read back: low is the byte of the fraction f that random replaces. */
  lemma FractionReadBack(ms: int, f: int, rest: int, low: byte, random: byte)
    requires ms * TWO32 == f * 1000 + rest && 0 <= rest < 1000
    requires rest == 0 ==> low == 0
    ensures var g := f - low + random;
      && (Millis(g) == ms || Millis(g) == ms - 1)
      && (Millis(g) == ms <==> rest == 0 || random > low)
  {
    var g := f - low + random;
    assert g * 1000 == ms * TWO32 - rest + 1000 * (random - low);
    if rest == 0 || random > low {
      ScaledFloor(g, ms);
    } else {
      ScaledFloor(g, ms - 1);
    }
  }

  lemma FractionParts(ms: int)
    requires 0 <= ms < 1000
    ensures var f := NtpFraction(ms);
      ms * TWO32 == f * 1000 + (ms * TWO32) % 1000 && 0 <= f < TWO32 && f % TWO32 == f
  {
    assert ms * TWO32 < 1000 * TWO32;
  }

  lemma FractionOfRest(time: int)
    requires time >= 0
    ensures NtpFraction(time) == NtpFraction(time % 1000)
    ensures time % 125 == (time % 1000) % 125
    ensures TruncDiv(time, 1000) * 1000 + time % 1000 == time
  {
    var q, ms := time / 1000, time % 1000;
    assert time == 125 * (8 * q + ms / 125) + ms % 125;
    DivModUnique(time, 8 * q + ms / 125, ms % 125, 125);
  }

  /**
   * Writing then reading a time not before 1970 gives it back, or one
   * millisecond less; it is exact for multiples of 125 ms, and otherwise when
   * the random byte exceeds the fraction's own low byte.
   */
  lemma TimeStampRoundTrip(time: int, random: byte)
    requires InEra(time) && time >= 0
    ensures var r := ReadTimeStamp(Encoded(time, random), 0);
      && (r == time || r == time - 1)
      && (r == time <==> time % 125 == 0 || random > NtpFraction(time) % 256)
  {
    ReadBack(time, random);
    ReadValue(ReadTimeStamp(Encoded(time, random), 0), time, random);
  }

  lemma ReadValue(r: int, time: int, random: byte)
    requires time >= 0
    requires r == TruncDiv(time, 1000) * 1000 + Millis(Replaced(NtpFraction(time), random))
    ensures r == time || r == time - 1
    ensures r == time <==> time % 125 == 0 || random > NtpFraction(time) % 256
  {
    var ms := time % 1000;
    var f := NtpFraction(ms);
    var rest := (ms * TWO32) % 1000;
    FractionOfRest(time);
    FractionParts(ms);
    ExactFraction(ms, f, rest);
    FractionReadBack(ms, f, rest, f % 256, random);
  }

  /** Before 1970 a time that is not a whole second comes back a second late. */
  lemma NegativeTimeStamp(time: int, random: byte)
    requires InEra(time) && time < 0 && (-time) % 1000 != 0
    ensures var r := ReadTimeStamp(Encoded(time, random), 0); r == time + 1000 || r == time + 999
  {
    ReadBack(time, random);
    NegativeReadValue(ReadTimeStamp(Encoded(time, random), 0), time, random);
  }

  lemma NegativeReadValue(r: int, time: int, random: byte)
    requires time < 0 && (-time) % 1000 != 0
    requires r == TruncDiv(time, 1000) * 1000 + Millis(Replaced(NtpFraction(time), random))
    ensures r == time + 1000 || r == time + 999
  {
    var m := (-time) % 1000;
    NegativeParts(time);
    NegativeFraction(m, m * TWO32 / 1000, random);
  }

  lemma NegativeParts(time: int)
    requires time < 0 && (-time) % 1000 != 0
    ensures var m := (-time) % 1000;
      && NtpFraction(time) == -(m * TWO32 / 1000)
      && TruncDiv(time, 1000) * 1000 - m == time
  {
    var m := (-time) % 1000;
    assert TruncMod(time, 1000) == -m;
  }

  lemma NegativeFraction(m: int, h: int, random: byte)
    requires 0 < m < 1000 && h == m * TWO32 / 1000
    ensures var g := Replaced(-h, random);
      Millis(g) == 1000 - m || Millis(g) == 999 - m
  {
    DivModUnique(-h, -1, TWO32 - h, TWO32);
    var low := (-h) % 256;
    var g := TWO32 - h - low + random;
    assert (1000 - m) * TWO32 <= (TWO32 - h) * 1000 < (1000 - m) * TWO32 + 1000;
    if g * 1000 < (1000 - m) * TWO32 { ScaledFloor(g, 999 - m); } else { ScaledFloor(g, 1000 - m); }
  }

  /** The promised round trip holds exactly for times not before 1970 and whole seconds. */
  lemma TimeStampRoundTripIff(time: int, random: byte)
    requires InEra(time)
    ensures var r := ReadTimeStamp(Encoded(time, random), 0);
      (r == time || r == time - 1) <==> (time >= 0 || (-time) % 1000 == 0)
  {
    if time >= 0 {
      TimeStampRoundTrip(time, random);
    } else if (-time) % 1000 != 0 {
      NegativeTimeStamp(time, random);
    } else {
      ReadBack(time, random);
      WholeSecondValue(ReadTimeStamp(Encoded(time, random), 0), time, random);
    }
  }

  lemma WholeSecondValue(r: int, time: int, random: byte)
    requires time < 0 && (-time) % 1000 == 0
    requires r == TruncDiv(time, 1000) * 1000 + Millis(Replaced(NtpFraction(time), random))
    ensures r == time
  {
    assert TruncMod(time, 1000) == 0;
    assert NtpFraction(time) == 0;
    assert Millis(random) == 0;
  }

  /** The input that shows it: the last millisecond of 1969. */
  lemma LastMillisecondOf1969(random: byte)
    ensures ReadTimeStamp(Encoded(-1, random), 0) > 900
  {
    NegativeTimeStamp(-1, random);
  }

  /** 1970 in seconds since 1900, most significant byte first, and half a second as the fraction's first bit. */
  lemma EpochBytes(random: byte)
    ensures Encoded(0, random) == [0x83, 0xAA, 0x7E, 0x80, 0, 0, 0, random]
    ensures Encoded(500, random) == [0x83, 0xAA, 0x7E, 0x80, 0x80, 0, 0, random]
  {
    BytesOf(0x83AA_7E80);
    BytesOf(0);
    BytesOf(0x8000_0000);
    assert NtpSeconds(0) == 0x83AA_7E80 && NtpSeconds(500) == 0x83AA_7E80;
    assert NtpFraction(0) == 0 && NtpFraction(500) == 0x8000_0000;
  }

  lemma BytesOf(x: int)
    requires x == 0x83AA_7E80 || x == 0 || x == 0x8000_0000
    ensures [Byte(x, 0x100_0000), Byte(x, 0x1_0000), Byte(x, 0x100), Byte(x, 1)]
      == if x == 0 then [0, 0, 0, 0] else if x == 0x8000_0000 then [0x80, 0, 0, 0] else [0x83, 0xAA, 0x7E, 0x80]
  {
  }

  lemma EpochIsRead()
    ensures ReadTimeStamp([0x83, 0xAA, 0x7E, 0x80, 0x80, 0, 0, 0], 0) == 500
  {
    var b := [0x83, 0xAA, 0x7E, 0x80, 0x80, 0, 0, 0];
    assert Read32(b, 0) == 0x83AA_7E80 && Read32(b, 4) == 0x8000_0000;
  }

  // -------------------------------------------------------------- clock offset

  function RoundTripTime(requestTime: int, receiveTime: int, transmitTime: int, responseTime: int): int
  {
    (responseTime - requestTime) - (transmitTime - receiveTime)
  }

  function ClockOffset(originateTime: int, receiveTime: int, transmitTime: int, responseTime: int): int
  {
    TruncDiv((receiveTime - originateTime) + (transmitTime - responseTime), 2)
  }

  /** Local time at the response: the request time plus the ticks passed, in whole milliseconds. */
  function ResponseTime(requestTime: int, requestTicks: int, responseTicks: int): int
  {
    requestTime + TruncDiv(responseTicks - requestTicks, 1000000)
  }

  /**
   * A request written at requestTime reaches a server whose clock is ahead by
   * skew after `there`, is answered `work` later, and the answer comes `back`
   * later; the server echoes the request's own timestamp.  The computed offset is
   * the skew to within half the round trip plus a millisecond.
   */
  lemma ClockOffsetBound(requestTime: int, random: byte, skew: int, there: nat, work: nat, back: nat,
                         requestTicks: int, responseTicks: int)
    requires InEra(requestTime) && requestTime >= 0 && requestTicks <= responseTicks
    requires (responseTicks - requestTicks) / 1000000 == there + work + back
    ensures var originateTime := ReadTimeStamp(Encoded(requestTime, random), 0);
      var receiveTime := requestTime + there + skew;
      var transmitTime := receiveTime + work;
      var responseTime := ResponseTime(requestTime, requestTicks, responseTicks);
      var offset := ClockOffset(originateTime, receiveTime, transmitTime, responseTime);
      var rtt := RoundTripTime(requestTime, receiveTime, transmitTime, responseTime);
      && rtt == there + back
      && -(rtt / 2 + 1) <= offset - skew <= rtt / 2 + 1
  {
    TimeStampRoundTrip(requestTime, random);
  }

  /** A time in milliseconds read for a clock in nanoseconds: rounded down, and perhaps one less. */
  predicate ReadsAs(ms: int, ns: int)
  {
    ms == ns / 1000000 || ms == ns / 1000000 - 1
  }

  /** A server that writes its clock to the last bit of the fraction is read like that. */
  lemma ServerTimeIsRead(ns: nat)
    ensures ReadsAs(ns / 1000000000 * 1000 + Millis(ns % 1000000000 * TWO32 / 1000000000), ns)
  {
    var x := ns % 1000000000;
    var f, ms := x * TWO32 / 1000000000, x / 1000000;
    assert ms * 1000000 <= x < (ms + 1) * 1000000;
    FractionOfNanos(x, f, ms);
    WholeAndPart(ns);
  }

  lemma FractionOfNanos(x: nat, f: nat, ms: nat)
    requires ms * 1000000 <= x < (ms + 1) * 1000000 && f * 1000000000 <= x * TWO32 < (f + 1) * 1000000000
    ensures Millis(f) == ms || Millis(f) == ms - 1
  {
    if ms * TWO32 <= f * 1000 { ScaledFloor(f, ms); } else { ScaledFloor(f, ms - 1); }
  }

  lemma WholeAndPart(ns: nat)
    ensures ns / 1000000 == ns / 1000000000 * 1000 + ns % 1000000000 / 1000000
  {
    var s, x := ns / 1000000000, ns % 1000000000;
    assert ns == (s * 1000 + x / 1000000) * 1000000 + x % 1000000;
    DivModUnique(ns, s * 1000 + x / 1000000, x % 1000000, 1000000);
  }

  /**
   * The same exchange to the nanosecond, with every truncation on either side: the
   * request time, the echoed timestamp, both server times and the ticks.  The
   * offset is the skew to within half the round trip plus 2.5 ms.
   */
  lemma ClockOffsetBoundNs(requestNs: nat, random: byte, skew: int, there: nat, work: nat, back: nat, ticks: int,
                           receiveTime: int, transmitTime: int)
    requires InEra(requestNs / 1000000)
    requires ReadsAs(receiveTime, requestNs + there + skew) && ReadsAs(transmitTime, requestNs + there + work + skew)
    ensures var requestTime := requestNs / 1000000;
      var originateTime := ReadTimeStamp(Encoded(requestTime, random), 0);
      var responseTime := ResponseTime(requestTime, ticks, ticks + there + work + back);
      var offset := ClockOffset(originateTime, receiveTime, transmitTime, responseTime);
      -(there + back + 5000000) <= 2 * (1000000 * offset - skew) <= there + back + 5000000
  {
    var requestTime := requestNs / 1000000;
    TimeStampRoundTrip(requestTime, random);
    OffsetOfTimes(requestNs, skew, there, work, back, requestTime,
                  ReadTimeStamp(Encoded(requestTime, random), 0), receiveTime, transmitTime,
                  requestTime + (there + work + back) / 1000000);
  }

  lemma OffsetOfTimes(requestNs: nat, skew: int, there: nat, work: nat, back: nat, requestTime: int,
                      originateTime: int, receiveTime: int, transmitTime: int, responseTime: int)
    requires requestTime == requestNs / 1000000 && requestTime - 1 <= originateTime <= requestTime
    requires ReadsAs(receiveTime, requestNs + there + skew) && ReadsAs(transmitTime, requestNs + there + work + skew)
    requires responseTime == requestTime + (there + work + back) / 1000000
    ensures var offset := ClockOffset(originateTime, receiveTime, transmitTime, responseTime);
      -(there + back + 5000000) <= 2 * (1000000 * offset - skew) <= there + back + 5000000
  {
  }

  // ------------------------------------------------------------------- filter

  /** ntpTimeMs and elapsedTimeNs. */
  datatype Clock = Clock(ntpTimeMs: int, elapsedTimeNs: int)

  function GetRefTime(c: Clock, now: int): int
  {
    if c.ntpTimeMs == UNSET then UNSET
    else c.ntpTimeMs + TruncDiv(now - c.elapsedTimeNs, 1000000)
  }

  const REJECT_MS := 35

  function Abs(x: int): nat
  {
    if x < 0 then -x else x
  }

  /** The time stored when a measurement is accepted: half of the difference is taken back. */
  function Filtered(measured: int, curRefTime: int): int
  {
    if curRefTime == UNSET then measured
    else TruncDiv(2 * measured - (measured - curRefTime), 2)
  }

  predicate Accepted(measured: int, curRefTime: int)
  {
    curRefTime == UNSET || Abs(measured - curRefTime) <= REJECT_MS
  }

  function Sync(c: Clock, measured: int, now: int): Clock
  {
    var cur := GetRefTime(c, now);
    if Accepted(measured, cur) then Clock(Filtered(measured, cur), now) else c
  }

  class SntpRefTimeProvider {
    var originSntpTime: int
    var ntpTimeMs: int
    var elapsedTimeNs: int

    ghost function Value(): Clock
      reads this
    {
      Clock(ntpTimeMs, elapsedTimeNs)
    }

    constructor ()
      ensures originSntpTime == 0 && Value() == Clock(UNSET, UNSET)
    {
      originSntpTime, ntpTimeMs, elapsedTimeNs := 0, UNSET, UNSET;
    }

    method ReadRefTime(now: int) returns (time: int)
      ensures time == GetRefTime(Value(), now)
    {
      return if ntpTimeMs == -1 then -1 else ntpTimeMs + TruncDiv(now - elapsedTimeNs, 1000000);
    }

    /** A measurement has been put in originSntpTime; the clock reads `now` throughout. */
    method OnReadSntpTime(now: int)
      modifies this
      ensures Value() == Sync(old(Value()), old(originSntpTime), now)
      ensures originSntpTime == if Accepted(old(originSntpTime), GetRefTime(old(Value()), now))
        then ntpTimeMs else old(originSntpTime)
      ensures old(ntpTimeMs) == -1 ==> ntpTimeMs == old(originSntpTime) && elapsedTimeNs == now
      ensures old(ntpTimeMs) >= 0 && old(elapsedTimeNs) <= now ==>
        var cur := old(ntpTimeMs) + (now - old(elapsedTimeNs)) / 1000000;
        if -35 <= old(originSntpTime) - cur <= 35
        then elapsedTimeNs == now && ntpTimeMs == TruncDiv(old(originSntpTime) + cur, 2)
        else elapsedTimeNs == old(elapsedTimeNs) && ntpTimeMs == old(ntpTimeMs)
    {
      var curRefTime := ReadRefTime(now);
      if curRefTime != UNSET {
        var diff := originSntpTime - curRefTime;
        if Abs(diff) > REJECT_MS {
          return;
        }
        // originSntpTime - 0.5 * diff, converted to an integer
        originSntpTime := TruncDiv(2 * originSntpTime - diff, 2);
      }
      ntpTimeMs := originSntpTime;
      elapsedTimeNs := now;
    }
  }

  /** A sync of a running clock moves the reference by at most 18 ms, or not at all. */
  lemma SyncMovesLittle(c: Clock, measured: int, now: int)
    requires GetRefTime(c, now) != UNSET
    ensures var before, after := GetRefTime(c, now), GetRefTime(Sync(c, measured, now), now);
      && (Abs(measured - before) > REJECT_MS ==> Sync(c, measured, now) == c)
      && Abs(after - before) <= 18
  {
  }

  /** A reading of the local clock and the measurement made then. */
  datatype Sample = Sample(now: int, measured: int)

  function SyncRun(c: Clock, samples: seq<Sample>): Clock
    decreases |samples|
  {
    if samples == [] then c else SyncRun(Sync(c, samples[0].measured, samples[0].now), samples[1..])
  }

  /** The local clock never runs backwards and times are after 1970. */
  predicate Forward(c: Clock, samples: seq<Sample>)
    decreases |samples|
  {
    samples != [] ==>
      && samples[0].now >= c.elapsedTimeNs && samples[0].measured >= 0
      && Forward(Sync(c, samples[0].measured, samples[0].now), samples[1..])
  }

  /** Once set, the reference stays set and never reads as unset. */
  lemma {:induction false} RunStaysSet(c: Clock, samples: seq<Sample>)
    requires c.ntpTimeMs >= 0 && Forward(c, samples)
    ensures SyncRun(c, samples).ntpTimeMs >= 0
    decreases |samples|
  {
    if samples != [] {
      RunStaysSet(Sync(c, samples[0].measured, samples[0].now), samples[1..]);
    }
  }

  /**
   * Over a whole run after the first sync, each sync either leaves the reference
   * alone (a measurement more than 35 ms off) or moves it by at most 18 ms.
   */
  lemma {:induction false} EverySyncMovesLittle(c: Clock, samples: seq<Sample>, i: nat)
    requires c.ntpTimeMs >= 0 && Forward(c, samples) && i < |samples|
    ensures var before := SyncRun(c, samples[..i]);
      var after := SyncRun(c, samples[..i + 1]);
      var now, measured := samples[i].now, samples[i].measured;
      && (Abs(measured - GetRefTime(before, now)) > REJECT_MS ==> after == before)
      && Abs(GetRefTime(after, now) - GetRefTime(before, now)) <= 18
    decreases i
  {
    if i == 0 {
      assert samples[..1] == [samples[0]] && samples[..0] == [] && [samples[0]][1..] == [];
      SyncMovesLittle(c, samples[0].measured, samples[0].now);
    } else {
      var d := Sync(c, samples[0].measured, samples[0].now);
      EverySyncMovesLittle(d, samples[1..], i - 1);
      assert samples[..i][1..] == samples[1..][..i - 1] && samples[..i + 1][1..] == samples[1..][..i];
    }
  }

  /** How far the reference is behind the measured time line. */
  function Residual(c: Clock, s: Sample): int
  {
    s.measured - GetRefTime(c, s.now)
  }

  /** Each measurement is the one before it plus the milliseconds the local clock counted since. */
  predicate Consistent(samples: seq<Sample>)
  {
    forall i :: 0 < i < |samples| ==>
      && samples[i - 1].now <= samples[i].now
      && samples[i].measured == samples[i - 1].measured + (samples[i].now - samples[i - 1].now) / 1000000
  }

  /** A residual after one accepted sync: half of it, rounded up. */
  function Halved(residual: int): int
  {
    residual - residual / 2
  }

  function HalvedTimes(residual: int, n: nat): int
    decreases n
  {
    if n == 0 then residual else HalvedTimes(Halved(residual), n - 1)
  }

  lemma SyncHalves(c: Clock, s: Sample)
    requires c.ntpTimeMs >= 0 && s.now >= c.elapsedTimeNs && s.measured >= 0
    requires Abs(Residual(c, s)) <= REJECT_MS
    ensures var t := Sync(c, s.measured, s.now);
      t.ntpTimeMs >= 0 && s.measured - t.ntpTimeMs == Halved(Residual(c, s)) && Abs(Halved(Residual(c, s))) <= REJECT_MS
  {
  }

  /** A run of consistent measurements that starts after the last sync, within the filter's reach. */
  predicate Convergent(c: Clock, samples: seq<Sample>)
  {
    && samples != [] && Consistent(samples)
    && c.ntpTimeMs >= 0 && c.elapsedTimeNs <= samples[0].now && samples[0].measured >= 0
    && Abs(Residual(c, samples[0])) <= REJECT_MS
  }

  /** The rest of such a run is one, with the residual halved. */
  lemma ConvergentTail(c: Clock, samples: seq<Sample>)
    requires Convergent(c, samples) && |samples| > 1
    ensures var t := Sync(c, samples[0].measured, samples[0].now);
      Convergent(t, samples[1..]) && Residual(t, samples[1]) == Halved(Residual(c, samples[0]))
  {
    SyncHalves(c, samples[0]);
    assert forall i :: 0 <= i < |samples| - 1 ==> samples[1..][i] == samples[i + 1];
    assert samples[1].now >= samples[0].now;
  }

  /** Under consistent measurements every sync is accepted and halves the residual. */
  lemma {:induction false} RunHalves(c: Clock, samples: seq<Sample>)
    requires Convergent(c, samples)
    ensures samples[|samples| - 1].measured - SyncRun(c, samples).ntpTimeMs ==
            HalvedTimes(Residual(c, samples[0]), |samples|)
    decreases |samples|
  {
    SyncHalves(c, samples[0]);
    if |samples| > 1 {
      ConvergentTail(c, samples);
      RunHalves(Sync(c, samples[0].measured, samples[0].now), samples[1..]);
      assert samples[1..][|samples| - 2] == samples[|samples| - 1];
    } else {
      assert samples[1..] == [];
      assert HalvedTimes(Residual(c, samples[0]), 1) == HalvedTimes(Halved(Residual(c, samples[0])), 0);
    }
  }

  /** The residual strictly shrinks until it is 0 or 1, and stays there. */
  lemma HalvedShrinks(residual: int)
    ensures residual == 0 || residual == 1 ==> Halved(residual) == residual
    ensures residual != 0 && residual != 1 ==> Abs(Halved(residual)) < Abs(residual)
  {
  }

  lemma SixHalvings(residual: int)
    requires Abs(residual) <= REJECT_MS
    ensures HalvedTimes(residual, 6) == 0 || HalvedTimes(residual, 6) == 1
  {
    var a := Halved(residual);
    var b := Halved(a);
    var d := Halved(b);
    var e := Halved(d);
    var f := Halved(e);
    assert -17 <= a <= 18 && -8 <= b <= 9 && -4 <= d <= 5 && -2 <= e <= 3 && -1 <= f <= 2;
    assert HalvedTimes(residual, 6) == HalvedTimes(a, 5) == HalvedTimes(b, 4) == HalvedTimes(d, 3);
    assert HalvedTimes(d, 3) == HalvedTimes(e, 2) == HalvedTimes(f, 1) == HalvedTimes(Halved(f), 0);
  }

  lemma {:induction false} SettledStays(residual: int, n: nat)
    requires residual == 0 || residual == 1
    ensures HalvedTimes(residual, n) == residual
  {
    if n > 0 { SettledStays(Halved(residual), n - 1); }
  }

  lemma {:induction false} HalvedTimesAdd(residual: int, m: nat, n: nat)
    ensures HalvedTimes(residual, m + n) == HalvedTimes(HalvedTimes(residual, m), n)
    decreases m
  {
    if m > 0 { HalvedTimesAdd(Halved(residual), m - 1, n); }
  }

  /** Six consistent syncs bring the reference to within a millisecond, for good. */
  lemma SixSyncsConverge(c: Clock, samples: seq<Sample>)
    requires Convergent(c, samples) && |samples| >= 6
    ensures var left := samples[|samples| - 1].measured - SyncRun(c, samples).ntpTimeMs;
      left == 0 || left == 1
  {
    var residual := Residual(c, samples[0]);
    RunHalves(c, samples);
    SixHalvings(residual);
    HalvedTimesAdd(residual, 6, |samples| - 6);
    SettledStays(HalvedTimes(residual, 6), |samples| - 6);
  }

  // --------------------------------------------------------- runs from the start

  /** The first sync of a provider takes the measurement and the ticks as they are, however large. */
  lemma FirstSyncSets(now: int, measured: int)
    ensures Sync(Clock(UNSET, UNSET), measured, now) == Clock(measured, now)
    ensures GetRefTime(Clock(UNSET, UNSET), now) == UNSET
  {
  }

  /** A run that starts unset is its first measurement, and a run on a set clock from there. */
  lemma RunFromUnset(samples: seq<Sample>)
    requires samples != []
    ensures SyncRun(Clock(UNSET, UNSET), samples)
      == SyncRun(Clock(samples[0].measured, samples[0].now), samples[1..])
  {
    FirstSyncSets(samples[0].now, samples[0].measured);
  }

  /** The local clock never runs backwards and every measurement is after 1970. */
  predicate Ticking(samples: seq<Sample>)
  {
    && (forall i :: 0 <= i < |samples| ==> samples[i].measured >= 0)
    && forall i :: 0 < i < |samples| ==> samples[i - 1].now <= samples[i].now
  }

  lemma {:induction false} TickingIsForward(c: Clock, samples: seq<Sample>)
    requires c.ntpTimeMs >= 0 && Ticking(samples) && (samples != [] ==> c.elapsedTimeNs <= samples[0].now)
    ensures Forward(c, samples)
    decreases |samples|
  {
    if samples != [] {
      var t := Sync(c, samples[0].measured, samples[0].now);
      assert t.elapsedTimeNs <= samples[0].now && t.ntpTimeMs >= 0;
      assert forall i :: 0 <= i < |samples| - 1 ==> samples[1..][i] == samples[i + 1];
      if |samples| > 1 { assert samples[0].now <= samples[1].now; }
      TickingIsForward(t, samples[1..]);
    }
  }

  /**
   * From a new provider, whatever is measured: after the first sync every sync
   * leaves the reference alone or moves it by at most 18 ms.
   */
  lemma EverySyncFromStart(samples: seq<Sample>, i: nat)
    requires Ticking(samples) && 0 < i < |samples|
    ensures var before := SyncRun(Clock(UNSET, UNSET), samples[..i]);
      var after := SyncRun(Clock(UNSET, UNSET), samples[..i + 1]);
      var now, measured := samples[i].now, samples[i].measured;
      && (Abs(measured - GetRefTime(before, now)) > 35 ==> after == before)
      && Abs(GetRefTime(after, now) - GetRefTime(before, now)) <= 18
  {
    var c, rest := Clock(samples[0].measured, samples[0].now), samples[1..];
    PrefixFromUnset(samples, i);
    PrefixFromUnset(samples, i + 1);
    assert forall k :: 0 <= k < |rest| ==> rest[k] == samples[k + 1];
    TickingIsForward(c, rest);
    EverySyncMovesLittle(c, rest, i - 1);
  }

  lemma PrefixFromUnset(samples: seq<Sample>, i: nat)
    requires 0 < i <= |samples|
    ensures SyncRun(Clock(UNSET, UNSET), samples[..i])
      == SyncRun(Clock(samples[0].measured, samples[0].now), samples[1..][..i - 1])
  {
    RunFromUnset(samples[..i]);
    assert samples[..i][1..] == samples[1..][..i - 1];
  }

  /** From a new provider, consistent measurements are followed exactly. */
  lemma ConsistentFromStart(samples: seq<Sample>)
    requires samples != [] && Consistent(samples) && samples[0].measured >= 0
    ensures SyncRun(Clock(UNSET, UNSET), samples).ntpTimeMs == samples[|samples| - 1].measured
  {
    RunFromUnset(samples);
    if |samples| > 1 {
      var c, rest := Clock(samples[0].measured, samples[0].now), samples[1..];
      assert forall k :: 0 <= k < |rest| ==> rest[k] == samples[k + 1];
      assert samples[1].now >= samples[0].now;
      assert Residual(c, rest[0]) == 0;
      RunHalves(c, rest);
      SettledStays(0, |rest|);
      assert rest[|rest| - 1] == samples[|samples| - 1];
    } else {
      assert samples[1..] == [];
    }
  }

  /**
   * From a new provider, a first measurement that is off by at most 35 ms and
   * consistent ones after it: from the seventh sync on the reference is within a
   * millisecond of them.
   */
  lemma SixSyncsFromStart(first: Sample, samples: seq<Sample>)
    requires first.measured >= 0 && |samples| >= 6 && Consistent(samples) && samples[0].measured >= 0
    requires first.now <= samples[0].now
    requires -35 <= samples[0].measured - (first.measured + (samples[0].now - first.now) / 1000000) <= 35
    ensures var left := samples[|samples| - 1].measured
                        - SyncRun(Clock(UNSET, UNSET), [first] + samples).ntpTimeMs;
      left == 0 || left == 1
  {
    RunFromUnset([first] + samples);
    assert ([first] + samples)[1..] == samples;
    SixSyncsConverge(Clock(first.measured, first.now), samples);
  }
}
