/** Seeking to key frames, and the conversions between times, timestamps and sample numbers. */
module Seek {
  import opened Common

  const H265_CLOCK_RATE := 90000

  datatype Way = NextKey | PreviousKey | NearestKey

  /** std::round of a non-negative quotient: half rounds up. */
  function RoundDiv(a: nat, b: int): nat
    requires b > 0
  {
    (2 * a + b) / (2 * b)
  }

  function GetSampleNumber(timeUs: nat, unitTimeUs: int): nat
    requires unitTimeUs > 0
  {
    RoundDiv(timeUs, unitTimeUs)
  }

  /** The last key frame's number. */
  function LastKey(maxSampleNo: nat, gop: int): nat
    requires gop > 0
  {
    maxSampleNo - maxSampleNo % gop
  }

  function FindKeySampleNumber(isVideo: bool, gop: int, playTimeUs: int, maxSampleNo: nat, unitTimeUs: int,
                               timeUs: int, way: Way): int
    requires gop > 0 && unitTimeUs > 0
  {
    if timeUs < 0 || timeUs >= playTimeUs then
      var residue := maxSampleNo % gop;
      if residue == 0 then maxSampleNo else maxSampleNo - residue
    else if timeUs == 0 then 0
    else
      var sampleNo := GetSampleNumber(timeUs, unitTimeUs);
      var indexInGop := sampleNo % gop;
      if !isVideo || indexInGop == 0 then sampleNo
      else match way
        case NextKey => sampleNo + gop - indexInGop
        case PreviousKey => sampleNo - indexInGop
        case NearestKey => if indexInGop >= gop / 2 then sampleNo + gop - indexInGop else sampleNo - indexInGop
  }

  /** The k-th key frame. */
  function Key(k: int, gop: int): int
  {
    k * gop
  }

  function Distance(a: int, b: int): nat
  {
    if a < b then b - a else a - b
  }

  ghost predicate IsKey(n: int, gop: int)
  {
    exists k :: n == Key(k, gop)
  }

  lemma KeysAround(n: nat, gop: int)
    requires gop > 0
    ensures n - n % gop == Key(n / gop, gop)
    ensures n - n % gop + gop == Key(n / gop + 1, gop)
    ensures forall k :: Key(k, gop) < n ==> Key(k, gop) <= n - n % gop
    ensures forall k :: Key(k, gop) > n - n % gop ==> Key(k, gop) >= n - n % gop + gop
    ensures forall k :: Key(k, gop) >= n && n % gop != 0 ==> Key(k, gop) >= n - n % gop + gop
  {
    var q := n / gop;
    assert n == q * gop + n % gop;
    forall k ensures Key(k, gop) <= q * gop || Key(k, gop) >= (q + 1) * gop {
      if k <= q { MulMonotone(k, q, gop); } else { MulMonotone(q + 1, k, gop); }
    }
    assert (q + 1) * gop == q * gop + gop;
  }

  /** NEXT is the least key at or after the rounded sample; PREVIOUS the greatest at or before it. */
  lemma KeySeekBounds(gop: int, playTimeUs: int, maxSampleNo: nat, unitTimeUs: int, timeUs: int)
    requires gop > 0 && unitTimeUs > 0 && 0 <= timeUs < playTimeUs
    ensures var n := GetSampleNumber(timeUs, unitTimeUs);
      var next := FindKeySampleNumber(true, gop, playTimeUs, maxSampleNo, unitTimeUs, timeUs, NextKey);
      && IsKey(next, gop) && n <= next && (forall k :: Key(k, gop) >= n ==> Key(k, gop) >= next)
    ensures var n := GetSampleNumber(timeUs, unitTimeUs);
      var previous := FindKeySampleNumber(true, gop, playTimeUs, maxSampleNo, unitTimeUs, timeUs, PreviousKey);
      && IsKey(previous, gop) && previous <= n && (forall k :: Key(k, gop) <= n ==> Key(k, gop) <= previous)
  {
    var n := GetSampleNumber(timeUs, unitTimeUs);
    KeysAround(n, gop);
    ZeroTime(unitTimeUs);
    assert 0 == Key(0, gop);
  }

  lemma ZeroTime(unitTimeUs: int)
    requires unitTimeUs > 0
    ensures GetSampleNumber(0, unitTimeUs) == 0
  {
  }

  /**
   * NEAREST is within half a GOP, rounded up; it is truly the nearest key except
   * in the middle of an odd GOP, where the later key is taken though the earlier
   * one is closer.
   */
  lemma KeySeekNearest(gop: int, playTimeUs: int, maxSampleNo: nat, unitTimeUs: int, timeUs: int)
    requires gop > 0 && unitTimeUs > 0 && 0 <= timeUs < playTimeUs
    ensures var n := GetSampleNumber(timeUs, unitTimeUs);
      var near := FindKeySampleNumber(true, gop, playTimeUs, maxSampleNo, unitTimeUs, timeUs, NearestKey);
      && IsKey(near, gop) && Distance(near, n) <= (gop + 1) / 2
      && ((forall k :: Distance(near, n) <= Distance(Key(k, gop), n))
          <==> gop % 2 == 0 || n % gop == 0 || n % gop != gop / 2)
  {
    var n := GetSampleNumber(timeUs, unitTimeUs);
    var near := FindKeySampleNumber(true, gop, playTimeUs, maxSampleNo, unitTimeUs, timeUs, NearestKey);
    KeysAround(n, gop);
    ZeroTime(unitTimeUs);
    assert 0 == Key(0, gop);
    if gop % 2 != 0 && n % gop != 0 && n % gop == gop / 2 {
      assert Distance(Key(n / gop, gop), n) < Distance(near, n);
    }
  }

  /** NEXT stays inside the media exactly when the rounded sample is not past the last key. */
  lemma NextKeyInRangeIff(gop: int, playTimeUs: int, maxSampleNo: nat, unitTimeUs: int, timeUs: int)
    requires gop > 0 && unitTimeUs > 0 && 0 <= timeUs < playTimeUs
    ensures FindKeySampleNumber(true, gop, playTimeUs, maxSampleNo, unitTimeUs, timeUs, NextKey) <= maxSampleNo
      <==> GetSampleNumber(timeUs, unitTimeUs) <= LastKey(maxSampleNo, gop)
  {
    var n := GetSampleNumber(timeUs, unitTimeUs);
    var next := FindKeySampleNumber(true, gop, playTimeUs, maxSampleNo, unitTimeUs, timeUs, NextKey);
    KeySeekBounds(gop, playTimeUs, maxSampleNo, unitTimeUs, timeUs);
    KeysAround(maxSampleNo, gop);
    var k :| next == Key(k, gop);
    assert LastKey(maxSampleNo, gop) == Key(maxSampleNo / gop, gop);
  }

  /** A later time never seeks to an earlier key. */
  lemma NextKeyMonotone(gop: int, playTimeUs: int, maxSampleNo: nat, unitTimeUs: int, t: int, u: int)
    requires gop > 0 && unitTimeUs > 0 && 0 <= t <= u < playTimeUs
    ensures FindKeySampleNumber(true, gop, playTimeUs, maxSampleNo, unitTimeUs, t, NextKey)
      <= FindKeySampleNumber(true, gop, playTimeUs, maxSampleNo, unitTimeUs, u, NextKey)
  {
    KeySeekBounds(gop, playTimeUs, maxSampleNo, unitTimeUs, t);
    KeySeekBounds(gop, playTimeUs, maxSampleNo, unitTimeUs, u);
    RoundDivMonotone(t, u, unitTimeUs);
    var next := FindKeySampleNumber(true, gop, playTimeUs, maxSampleNo, unitTimeUs, u, NextKey);
    var k :| next == Key(k, gop);
  }

  lemma RoundDivMonotone(a: nat, c: nat, b: int)
    requires b > 0 && a <= c
    ensures RoundDiv(a, b) <= RoundDiv(c, b)
  {
    DivMonotone(2 * a + b, 2 * c + b, 2 * b);
  }

  lemma DivMonotone(x: nat, y: nat, g: int)
    requires g > 0 && x <= y
    ensures x / g <= y / g
  {
    var p, q := x / g, y / g;
    assert x == p * g + x % g && y == q * g + y % g;
    assert (q + 1) * g == q * g + g;
    if q < p { MulMonotone(q + 1, p, g); }
  }

  /** Outside the play time the last key is used, for either stream. */
  lemma OutOfRangeSeeksToLastKey(isVideo: bool, gop: int, playTimeUs: int, maxSampleNo: nat, unitTimeUs: int,
                                 timeUs: int, way: Way)
    requires gop > 0 && unitTimeUs > 0 && (timeUs < 0 || timeUs >= playTimeUs)
    ensures var r := FindKeySampleNumber(isVideo, gop, playTimeUs, maxSampleNo, unitTimeUs, timeUs, way);
      && IsKey(r, gop) && r <= maxSampleNo && (forall k :: Key(k, gop) <= maxSampleNo ==> Key(k, gop) <= r)
  {
    KeysAround(maxSampleNo, gop);
  }

  function FindSampleNumber(playTimeUs: int, maxSampleNo: nat, unitTimeUs: int, timeUs: int): nat
    requires unitTimeUs > 0
  {
    if timeUs < 0 || timeUs >= playTimeUs then maxSampleNo else GetSampleNumber(timeUs, unitTimeUs)
  }

  /** A quotient rounded to the nearest integer: off by half the divisor at most, and up in the middle. */
  lemma RoundedIsNearest(a: nat, b: int)
    requires b > 0
    ensures -b < 2 * (RoundDiv(a, b) * b - a) <= b
  {
    var n := 2 * a + b;
    var q := n / (2 * b);
    assert n == q * (2 * b) + n % (2 * b);
    assert q * (2 * b) == 2 * (q * b);
  }

  /** Audio has no keys: inside the play time a seek gives the sample nearest to the time, for any way. */
  lemma AudioSeekIsNearest(gop: int, playTimeUs: int, maxSampleNo: nat, unitTimeUs: int, timeUs: int, way: Way)
    requires gop > 0 && unitTimeUs > 0 && 0 <= timeUs < playTimeUs
    ensures var n := FindKeySampleNumber(false, gop, playTimeUs, maxSampleNo, unitTimeUs, timeUs, way);
      n >= 0 && -unitTimeUs < 2 * (n * unitTimeUs - timeUs) <= unitTimeUs
  {
    RoundedIsNearest(timeUs, unitTimeUs);
  }

  /** The end of a range: the nearest sample inside the play time, the last sample of the media outside. */
  lemma RangeEnd(playTimeUs: int, maxSampleNo: nat, unitTimeUs: int, timeUs: int)
    requires unitTimeUs > 0
    ensures var n := FindSampleNumber(playTimeUs, maxSampleNo, unitTimeUs, timeUs);
      if 0 <= timeUs < playTimeUs then -unitTimeUs < 2 * (n * unitTimeUs - timeUs) <= unitTimeUs
      else n == maxSampleNo
  {
    if timeUs >= 0 { RoundedIsNearest(timeUs, unitTimeUs); }
  }

  /** A play range has a sample exactly when some key lies between its two rounded ends. */
  lemma PlayRangeIff(gop: int, playTimeUs: int, maxSampleNo: nat, unitTimeUs: int, startUs: int, endUs: int)
    requires gop > 0 && unitTimeUs > 0 && 0 <= startUs < playTimeUs
    ensures var end := FindSampleNumber(playTimeUs, maxSampleNo, unitTimeUs, endUs);
      FindKeySampleNumber(true, gop, playTimeUs, maxSampleNo, unitTimeUs, startUs, NextKey) <= end
      <==> exists k :: GetSampleNumber(startUs, unitTimeUs) <= Key(k, gop) <= end
  {
    KeySeekBounds(gop, playTimeUs, maxSampleNo, unitTimeUs, startUs);
    var next := FindKeySampleNumber(true, gop, playTimeUs, maxSampleNo, unitTimeUs, startUs, NextKey);
    var k :| next == Key(k, gop);
  }

  // ---------------------------------------- times, timestamps and sample numbers

  /** One frame's duration, truncated to microseconds. */
  function UnitTimeUs(frameCount: nat, clock: int): nat
    requires clock > 0
  {
    1000000 * frameCount / clock
  }

  /** getSamplePresentationTimeUs of a timestamp; the elapsed count is a 32-bit integer. */
  function PresentationOfTimestamp(timestamp: int, timestamp0: int, clock: int): int
    requires clock > 0
  {
    TruncDiv(1000000 * ToInt32(timestamp - timestamp0), clock)
  }

  /** getSamplePresentationTimeUs of a sample index; the product is a 32-bit integer too. */
  function PresentationOfIndex(index: nat, unitFrameCount: nat, clock: int): int
    requires clock > 0
  {
    TruncDiv(ToInt32(index * unitFrameCount) * 1000000, clock)
  }

  predicate CountFits(k: nat, unitFrameCount: nat)
  {
    k * unitFrameCount < 0x8000_0000
  }

  function SampleTimeIndex(timestamp: int, timestamp0: int, unitFrameCount: int): int
    requires unitFrameCount > 0
  {
    ToInt32(TruncDiv(timestamp - timestamp0, unitFrameCount))
  }

  /** The index of the k-th timestamp is k, for every k a 32-bit integer holds. */
  lemma TimeIndexRoundTrip(timestamp0: int, unitFrameCount: int, k: nat)
    requires unitFrameCount > 0 && k < 0x8000_0000
    ensures SampleTimeIndex(timestamp0 + k * unitFrameCount, timestamp0, unitFrameCount) == k
  {
    assert timestamp0 + k * unitFrameCount - timestamp0 == k * unitFrameCount + 0;
    DivModUnique(k * unitFrameCount, k, 0, unitFrameCount);
  }

  /** The two presentation times of the k-th timestamp's sample agree. */
  lemma PresentationTimesAgree(timestamp0: int, unitFrameCount: nat, k: nat, clock: int)
    requires clock > 0 && unitFrameCount > 0 && k < 0x8000_0000
    ensures var timestamp := timestamp0 + k * unitFrameCount;
      && SampleTimeIndex(timestamp, timestamp0, unitFrameCount) >= 0
      && PresentationOfTimestamp(timestamp, timestamp0, clock)
        == PresentationOfIndex(SampleTimeIndex(timestamp, timestamp0, unitFrameCount), unitFrameCount, clock)
  {
    TimeIndexRoundTrip(timestamp0, unitFrameCount, k);
    assert timestamp0 + k * unitFrameCount - timestamp0 == k * unitFrameCount;
  }

  /** Time lost by counting in truncated frame durations instead of true ones. */
  function Drift(k: nat, unitFrameCount: nat, clock: int): nat
    requires clock > 0
  {
    k * ((1000000 * unitFrameCount) % clock) / clock
  }

  lemma PresentationDrifts(k: nat, unitFrameCount: nat, clock: int)
    requires clock > 0 && CountFits(k, unitFrameCount)
    ensures PresentationOfIndex(k, unitFrameCount, clock)
      == k * UnitTimeUs(unitFrameCount, clock) + Drift(k, unitFrameCount, clock)
  {
    MultipleOfQuotient(k, 1000000 * unitFrameCount, clock);
    assert ToInt32(k * unitFrameCount) == k * unitFrameCount;
    assert k * unitFrameCount * 1000000 == k * (1000000 * unitFrameCount);
  }

  lemma MultipleOfQuotient(k: nat, w: nat, g: int)
    requires g > 0
    ensures k * w / g == k * (w / g) + k * (w % g) / g
  {
    var t, rho := w / g, w % g;
    var d, e := k * rho / g, k * rho % g;
    assert w == t * g + rho && k * rho == d * g + e;
    Distribute(k, t, rho, g, d, e);
    DivModUnique(k * w, k * t + d, e, g);
  }

  lemma Distribute(k: int, t: int, rho: int, g: int, d: int, e: int)
    requires k * rho == d * g + e
    ensures k * (t * g + rho) == (k * t + d) * g + e
  {
    assert k * (t * g + rho) == k * (t * g) + k * rho;
    assert k * (t * g) == (k * t) * g;
    assert (k * t + d) * g == (k * t) * g + d * g;
  }

  /** Rounding the presentation time of sample k gives k exactly while the drift is under half a frame. */
  lemma SampleOfPresentationIff(k: nat, unitFrameCount: nat, clock: int)
    requires clock > 0 && UnitTimeUs(unitFrameCount, clock) > 0 && CountFits(k, unitFrameCount)
    ensures PresentationOfIndex(k, unitFrameCount, clock) >= 0
    ensures GetSampleNumber(PresentationOfIndex(k, unitFrameCount, clock), UnitTimeUs(unitFrameCount, clock)) == k
      <==> 2 * Drift(k, unitFrameCount, clock) < UnitTimeUs(unitFrameCount, clock)
  {
    var t, d := UnitTimeUs(unitFrameCount, clock), Drift(k, unitFrameCount, clock);
    PresentationDrifts(k, unitFrameCount, clock);
    var n := 2 * (k * t + d) + t;
    assert n == k * (2 * t) + (2 * d + t);
    assert n == (n / (2 * t)) * (2 * t) + n % (2 * t);
    if 2 * d < t { DivModUnique(n, k, 2 * d + t, 2 * t); }
  }

  /** In particular it gives k for every k up to half the frame duration. */
  lemma SampleOfPresentation(k: nat, unitFrameCount: nat, clock: int)
    requires clock > 0 && UnitTimeUs(unitFrameCount, clock) > 0 && CountFits(k, unitFrameCount)
    requires k <= UnitTimeUs(unitFrameCount, clock) / 2
    ensures PresentationOfIndex(k, unitFrameCount, clock) >= 0
    ensures GetSampleNumber(PresentationOfIndex(k, unitFrameCount, clock), UnitTimeUs(unitFrameCount, clock)) == k
  {
    SampleOfPresentationIff(k, unitFrameCount, clock);
    if k > 0 {
      DriftBelow(k, (1000000 * unitFrameCount) % clock, clock);
    } else {
      assert Drift(0, unitFrameCount, clock) == 0;
    }
  }

  lemma DriftBelow(k: nat, rho: nat, clock: int)
    requires k > 0 && rho < clock
    ensures k * rho / clock <= k - 1
  {
    var d := k * rho / clock;
    assert k * rho == d * clock + k * rho % clock;
    MulMonotone(rho + 1, clock, k);
    assert (rho + 1) * k == k * rho + k && clock * k == k * clock;
    if d >= k { MulMonotone(k, d, clock); }
  }

  // --------------------------------------------------- inputs where it goes wrong

  /** Sample 1 of a GOP of 3: the key at 0 is nearer than the one at 3 that is taken. */
  lemma NearestTakesTheFarther()
    ensures GetSampleNumber(10, 10) == 1
    ensures FindKeySampleNumber(true, 3, 1000, 99, 10, 10, NearestKey) == 3
    ensures Distance(Key(0, 3), 1) < Distance(3, 1)
  {
  }

  /** 45 samples in GOPs of 30, and a time inside the play time that rounds to 40. */
  lemma NextKeyBeyondTheMedia()
    ensures FindKeySampleNumber(true, 30, 45000, 44, 1000, 40000, NextKey) == 60 > 44
  {
  }

  /** From 31 to 50 there is no key in GOPs of 30: the range is empty. */
  lemma PlayRangeWithoutKey()
    ensures FindKeySampleNumber(true, 30, 100000, 99, 1000, 31000, NextKey) == 60
    ensures FindSampleNumber(100000, 99, 1000, 50000) == 50
  {
  }

  /** At 3001 ticks a frame, sample 37512 is the first that its own presentation time misses. */
  lemma FirstDriftedSample(k: nat)
    requires k <= 37512
    ensures UnitTimeUs(3001, H265_CLOCK_RATE) == 33344 && PresentationOfIndex(k, 3001, H265_CLOCK_RATE) >= 0
    ensures GetSampleNumber(PresentationOfIndex(k, 3001, H265_CLOCK_RATE), 33344) == k <==> k < 37512
  {
    assert UnitTimeUs(3001, H265_CLOCK_RATE) == 33344 && (1000000 * 3001) % H265_CLOCK_RATE == 40000;
    SampleOfPresentationIff(k, 3001, H265_CLOCK_RATE);
    if k < 37512 { DivMonotone(k * 40000, 37511 * 40000, H265_CLOCK_RATE); }
  }
}
