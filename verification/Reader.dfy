/** The reading cursor over pauses and resumes, and the periodic reading task. */
module Reading {
  import opened Common
  import opened Pipeline
  import opened Delivery
  import opened SessionState
  import opened SampleIndex
  import opened HybridMeta
  import opened RtpHandling
  import opened Seek
  import opened Streaming
  import opened Atomicity
  import opened Playback

  const INVALID := -1
  const FAST_TX_FACTOR_FOR_CAM_SWITCHING := 25

  /** ReadInfo, the pause flag, the end-of-stream flag, and the samples read so far. */
  datatype Cursor = Cursor(start: int, end: int, cur: int, paused: bool, done: bool, log: seq<int>)

  datatype ReaderEvent = Tick(allocatable: bool) | Pause | Resume(received: int)

  function ReaderStep(c: Cursor, e: ReaderEvent): Cursor
  {
    match e
    case Tick(allocatable) =>
      if c.paused || !allocatable then c
      else if c.cur > c.end then c.(done := true)
      else c.(log := c.log + [c.cur], cur := c.cur + 1)
    case Pause => c.(paused := true)
    case Resume(received) =>
      if c.paused && received != INVALID then c.(cur := received + 1, paused := false) else c.(paused := false)
  }

  /** What each event does, case by case. */
  lemma CursorCases(c: Cursor, allocatable: bool, received: int)
    ensures c.paused || !allocatable ==> ReaderStep(c, Tick(allocatable)) == c
    ensures !c.paused && allocatable && c.cur <= c.end ==>
      ReaderStep(c, Tick(allocatable)) == c.(cur := c.cur + 1, log := c.log + [c.cur])
    ensures !c.paused && allocatable && c.cur > c.end ==> ReaderStep(c, Tick(allocatable)) == c.(done := true)
    ensures ReaderStep(c, Pause) == c.(paused := true)
    ensures !c.paused || received == -1 ==> ReaderStep(c, Resume(received)) == c.(paused := false)
    ensures c.paused && received != -1 ==> ReaderStep(c, Resume(received)) == c.(paused := false, cur := received + 1)
  {
  }

  function ReaderRun(c: Cursor, events: seq<ReaderEvent>): Cursor
    decreases |events|
  {
    if events == [] then c else ReaderRun(ReaderStep(c, events[0]), events[1..])
  }

  function Start(start: int, end: int): Cursor
  {
    Cursor(start, end, start, false, false, [])
  }

  /** One more than the highest sample read so far. */
  function High(start: int, log: seq<int>): int
  {
    if log == [] then start
    else
      var h, x := High(start, log[..|log| - 1]), log[|log| - 1];
      if h < x + 1 then x + 1 else h
  }

  /** A client cannot report a sample it was never sent. */
  predicate Truthful(c: Cursor, e: ReaderEvent)
  {
    e.Resume? && e.received != INVALID ==> c.start - 1 <= e.received < High(c.start, c.log)
  }

  predicate TruthfulRun(c: Cursor, events: seq<ReaderEvent>)
    decreases |events|
  {
    events != [] ==> Truthful(c, events[0]) && TruthfulRun(ReaderStep(c, events[0]), events[1..])
  }

  /** Everything below the highest sample read has been read. */
  ghost predicate Covered(start: int, log: seq<int>)
  {
    forall n :: start <= n < High(start, log) ==> n in log
  }

  /** No read jumps over a sample that was not read before. */
  ghost predicate NoSkip(start: int, end: int, log: seq<int>)
  {
    forall i :: 0 <= i < |log| ==> start <= log[i] <= end && log[i] <= High(start, log[..i])
  }

  ghost predicate ReaderInv(c: Cursor)
  {
    && c.start <= c.cur <= High(c.start, c.log)
    && Covered(c.start, c.log) && NoSkip(c.start, c.end, c.log)
    && (c.done ==> High(c.start, c.log) > c.end)
  }

  lemma ReadKeepsCovered(start: int, end: int, log: seq<int>, x: int)
    requires Covered(start, log) && NoSkip(start, end, log) && start <= x <= High(start, log) && x <= end
    ensures Covered(start, log + [x]) && NoSkip(start, end, log + [x])
    ensures High(start, log + [x]) == if High(start, log) < x + 1 then x + 1 else High(start, log)
  {
    var t := log + [x];
    assert t[..|log|] == log;
    forall n | start <= n < High(start, t) ensures n in t {
      if n == x { assert t[|log|] == x; } else { assert n in log; }
    }
    forall i | 0 <= i < |t| ensures start <= t[i] <= end && t[i] <= High(start, t[..i]) {
      if i < |log| { assert t[..i] == log[..i]; }
    }
  }

  lemma ReaderStepKeepsInv(c: Cursor, e: ReaderEvent)
    requires ReaderInv(c) && Truthful(c, e)
    ensures ReaderInv(ReaderStep(c, e))
  {
    if e.Tick? && !c.paused && e.allocatable && c.cur <= c.end {
      ReadKeepsCovered(c.start, c.end, c.log, c.cur);
    }
  }

  lemma {:induction false} ReaderRunKeepsInv(c: Cursor, events: seq<ReaderEvent>)
    requires ReaderInv(c) && TruthfulRun(c, events)
    ensures ReaderInv(ReaderRun(c, events))
    ensures ReaderRun(c, events).start == c.start && ReaderRun(c, events).end == c.end
    decreases |events|
  {
    if events != [] {
      ReaderStepKeepsInv(c, events[0]);
      ReaderRunKeepsInv(ReaderStep(c, events[0]), events[1..]);
    }
  }

  /**
   * Across any pauses and truthful resumes the log never skips a sample, and
   * when the reader reports the end every sample of the range has been read.
   */
  lemma PauseResumeLosesNothing(start: int, end: int, events: seq<ReaderEvent>)
    requires TruthfulRun(Start(start, end), events)
    ensures var c := ReaderRun(Start(start, end), events);
      && NoSkip(start, end, c.log) && Covered(start, c.log)
      && (c.done ==> forall n :: start <= n <= end ==> n in c.log)
  {
    ReaderRunKeepsInv(Start(start, end), events);
  }

  /** A resume leaves nothing unread behind the cursor exactly when the report is truthful. */
  lemma ResumeCoversIff(c: Cursor, received: int)
    requires ReaderInv(c) && c.paused && received != INVALID
    ensures var t := ReaderStep(c, Resume(received));
      (forall n :: c.start <= n < t.cur ==> n in t.log) <==> received < High(c.start, c.log)
  {
    HighIsAbove(c.start, c.log);
    if received >= High(c.start, c.log) {
      var n := High(c.start, c.log);
      assert c.start <= n < ReaderStep(c, Resume(received)).cur && n !in c.log;
    }
  }

  /** Paused after samples 0 to 4, a report of sample 9 resumes at 10: sample 5 is never read. */
  lemma ResumeAheadLeavesGap()
    ensures var c := ReaderRun(Start(0, 100), Ticks(5) + [Pause, Resume(9)]);
      c.cur == 10 && 5 !in c.log && !c.paused
  {
    FiveTicks();
    RunAppend(Start(0, 100), Ticks(5), [Pause, Resume(9)]);
    var c := ReaderRun(Start(0, 100), Ticks(5));
    assert [Pause, Resume(9)][1..] == [Resume(9)] && [Resume(9)][1..] == [];
    assert ReaderRun(c, [Pause, Resume(9)]) == ReaderRun(ReaderStep(c, Pause), [Resume(9)]);
  }

  lemma FiveTicks()
    ensures ReaderRun(Start(0, 100), Ticks(5)) == Start(0, 100).(cur := 5, log := [0, 1, 2, 3, 4])
  {
    TicksRead(Start(0, 100), 5);
    assert Range(0, 5) == [0, 1, 2, 3, 4];
  }

  lemma {:induction false} TicksRead(c: Cursor, n: nat)
    requires !c.paused && c.cur + n <= c.end + 1
    ensures ReaderRun(c, Ticks(n)) == c.(cur := c.cur + n, log := c.log + Range(c.cur, c.cur + n))
    decreases n
  {
    if n > 0 {
      assert Ticks(n)[1..] == Ticks(n - 1);
      TicksRead(ReaderStep(c, Tick(true)), n - 1);
      RangeCons(c.cur, c.cur + n);
    }
  }

  lemma {:induction false} RunAppend(c: Cursor, xs: seq<ReaderEvent>, ys: seq<ReaderEvent>)
    ensures ReaderRun(c, xs + ys) == ReaderRun(ReaderRun(c, xs), ys)
    decreases |xs|
  {
    if xs == [] {
      NothingBefore(ys);
    } else {
      assert (xs + ys)[1..] == xs[1..] + ys;
      RunAppend(ReaderStep(c, xs[0]), xs[1..], ys);
    }
  }

  lemma {:induction false} HighIsAbove(start: int, log: seq<int>)
    ensures High(start, log) >= start && forall x :: x in log ==> x < High(start, log)
  {
    if log != [] {
      HighIsAbove(start, log[..|log| - 1]);
      assert log == log[..|log| - 1] + [log[|log| - 1]];
    }
  }

  /** Between resumes the log rises by one, from the cursor on. */
  lemma {:induction false} LogRisesByOne(c: Cursor, events: seq<ReaderEvent>)
    requires forall e :: e in events ==> !e.Resume?
    ensures var t := ReaderRun(c, events);
      && c.cur <= t.cur && t.log == c.log + Range(c.cur, t.cur)
      && (c.cur <= c.end + 1 ==> t.cur <= c.end + 1) && t.end == c.end
    decreases |events|
  {
    if events == [] {
      assert Range(c.cur, c.cur) == [];
    } else {
      var s := ReaderStep(c, events[0]);
      LogRisesByOne(s, events[1..]);
      if s.cur == c.cur + 1 { RangeCons(c.cur, ReaderRun(c, events).cur); }
    }
  }

  /** end + 1 - cur reads finish the range, and one more tick reports it. */
  lemma {:induction false} TicksFinish(c: Cursor)
    requires !c.paused && c.cur <= c.end + 1
    ensures var t := ReaderRun(c, Ticks(c.end + 2 - c.cur));
      t == c.(done := true, cur := c.end + 1, log := c.log + Range(c.cur, c.end + 1))
    decreases c.end + 1 - c.cur
  {
    var s := ReaderStep(c, Tick(true));
    assert Ticks(c.end + 2 - c.cur)[1..] == Ticks(c.end + 1 - c.cur);
    if c.cur <= c.end {
      TicksFinish(s);
      RangeCons(c.cur, c.end + 1);
    } else {
      assert ReaderRun(s, Ticks(0)) == s;
    }
  }

  function Ticks(n: nat): seq<ReaderEvent>
  {
    seq(n, _ => Tick(true))
  }

  lemma RangeHolds(from: int, upto: int, n: int)
    ensures n in Range(from, upto) <==> from <= n < upto
  {
    if from <= n < upto { assert Range(from, upto)[n - from] == n; }
  }

  /**
   * A play request that is neither paused nor held back reads exactly the samples
   * from the first key at or after its start to its rounded end.
   */
  lemma PlayReadsFromKeyToEnd(gop: int, t: Timing, startUs: int, endUs: int, n: int)
    requires gop > 0 && t.unitTimeUs > 0 && 0 <= startUs < t.playTimeUs
    requires exists k :: GetSampleNumber(startUs, t.unitTimeUs) <= Key(k, gop) <= SampleAt(t, endUs)
    ensures var start, end := KeyAt(true, gop, t, startUs), SampleAt(t, endUs);
      && start <= end && IsKey(start, gop)
      && var c := ReaderRun(Start(start, end), Ticks(end + 2 - start));
      && c.done && (n in c.log <==> start <= n <= end)
  {
    PlayRangeIff(gop, t.playTimeUs, t.maxSampleNo, t.unitTimeUs, startUs, endUs);
    KeySeekBounds(gop, t.playTimeUs, t.maxSampleNo, t.unitTimeUs, startUs);
    var start, end := KeyAt(true, gop, t, startUs), SampleAt(t, endUs);
    TicksFinish(Start(start, end));
    RangeHolds(start, end + 1, n);
    assert [] + Range(start, end + 1) == Range(start, end + 1);
  }

  /** A play request for a range without a key reports its end and has read nothing. */
  lemma PlayWithoutKeyReadsNothing()
    ensures var t := Timing(100000, 99, 1000);
      var c := ReaderRun(Start(KeyAt(true, 30, t, 31000), SampleAt(t, 50000)), [Tick(true)]);
      c.done && c.log == []
  {
    PlayRangeWithoutKey();
    assert [Tick(true)][1..] == [];
  }

  // ------------------------------------------------------------- the methods

  class ReadInfo {
    var startSampleNo: int
    var endSampleNo: int
    var curSampleNo: int

    constructor (start: int, end: int)
      ensures startSampleNo == start && endSampleNo == end && curSampleNo == start
    {
      startSampleNo, endSampleNo, curSampleNo := start, end, start;
    }

    method SetCurSampleNo(idx: int)
      modifies this`curSampleNo
      ensures curSampleNo == idx
    {
      curSampleNo := idx;
    }

    predicate IsDone()
      reads this
    {
      curSampleNo > endSampleNo
    }
  }

  /** The cached lists of one camera's two views. */
  datatype Views = Views(fronts: seq<VideoInfo>, rears: seq<VideoInfo>)

  const NoInfo := VideoInfo([], 0, 0, 0)

  /** The two index entries of a sample; None when a list access throws. */
  function EntryOf(cache: seq<Views>, camId: int, n: int): Option<(VideoInfo, VideoInfo)>
  {
    if 0 <= camId < |cache| then
      if 0 <= n < |cache[camId].fronts| && n < |cache[camId].rears| then
        Some((cache[camId].fronts[n], cache[camId].rears[n]))
      else None
    else Some((NoInfo, NoInfo))
  }

  /** The index is as loaded, and no sample is larger than so many bytes. */
  ghost predicate GoodCache(cache: seq<Views>, audio: seq<RtpMeta>, largest: nat)
  {
    && MAX_META_BYTES + MAX_META_BYTES <= largest
    && (forall c, n :: 0 <= c < |cache| && EntryOf(cache, c, n).Some? ==>
          GoodEntry(EntryOf(cache, c, n).value, largest))
    && forall i :: 0 <= i < |audio| ==> AtLeastMeta(audio[i].len) <= largest
  }

  ghost predicate GoodEntry(entry: (VideoInfo, VideoInfo), largest: nat)
  {
    && ValidInfo(entry.0) && ValidInfo(entry.1)
    && AtLeastMeta(entry.0.size) + AtLeastMeta(entry.1.size) <= largest
  }

  lemma EntryIsGood(cache: seq<Views>, audio: seq<RtpMeta>, largest: nat, camId: int, n: int)
    requires GoodCache(cache, audio, largest) && EntryOf(cache, camId, n).Some?
    ensures GoodEntry(EntryOf(cache, camId, n).value, largest)
  {
    if !(0 <= camId < |cache|) {
      assert ValidInfo(NoInfo);
    }
  }

  /** A session's stream handler. */
  class StreamHandler {
    const info: ReadInfo            // video
    const audioInfo: ReadInfo
    const session: Session
    const rtpHandler: RtpHandler
    var readLastVideoSample: bool
    var readLastAudioSample: bool
    var videoRtpRemoveCnt: int
    ghost var log: seq<int>         // video samples read
    ghost var audioLog: seq<int>
    ghost var calls: seq<Read>      // every call that began a job

    constructor (session: Session, rtpHandler: RtpHandler)
      requires session.Abs() == Init
      ensures this.session == session && this.rtpHandler == rtpHandler
      ensures fresh(info) && fresh(audioInfo) && Valid() && calls == []
    {
      info := new ReadInfo(-1, -1);
      audioInfo := new ReadInfo(-1, -1);
      this.session, this.rtpHandler := session, rtpHandler;
      readLastVideoSample, readLastAudioSample, videoRtpRemoveCnt := false, false, -1;
      log, audioLog, calls := [], [], [];
      new;
      assert Exec(Init, []) == Some(Init) && WellFormedRun([]);
    }

    /** The strand is between two tasks. */
    ghost predicate Valid()
      reads this, session
    {
      info != audioInfo && Reachable(session.Abs()) && StrandIdle(session.Abs())
    }

    ghost function Abs(): Cursor
      reads this, info, session
    {
      Cursor(info.startSampleNo, info.endSampleNo, info.curSampleNo, session.isPaused, readLastVideoSample, log)
    }

    ghost function AudioAbs(): Cursor
      reads this, audioInfo, session
    {
      Cursor(audioInfo.startSampleNo, audioInfo.endSampleNo, audioInfo.curSampleNo, session.isPaused,
             readLastAudioSample, audioLog)
    }

    predicate Started()
      reads this, info, audioInfo
    {
      info.curSampleNo >= 0 && audioInfo.curSampleNo >= 0
    }

    /** The state of the playing machine that this is. */
    ghost function Now(): Player
      requires Started()
      reads this, info, audioInfo, session, rtpHandler
    {
      Player(session.Abs(), info.curSampleNo, log, rtpHandler.camStreams,
             audioInfo.curSampleNo, audioLog, rtpHandler.audioStream)
    }

    /** The title is what a video task reads with these settings. */
    ghost predicate Shows(t: Title, cfg: Settings, lists: seq<NotTx>, camId: int, cache: seq<Views>)
      reads this, info
    {
      && t.cfg == cfg && t.lists == lists && t.camId == camId && 0 <= camId < |cache|
      && t.fronts == cache[camId].fronts && t.rears == cache[camId].rears && t.last == info.endSampleNo + 1
    }

    ghost predicate Sounds(t: Title, hybridMetaMap: HybridMap, cache: seq<RtpMeta>)
      reads this, audioInfo
    {
      && ValidSettings(t.cfg) && t.cfg.gops != [] && hybridMetaMap == MapOf(t)
      && t.audio == cache && t.audioLast == audioInfo.endSampleNo + 1
    }

    /** The range of a play request, in microseconds, for both streams: the cursors start with the range. */
    method InitUserRequestingPlaytime(gop: int, video: Timing, audio: Timing, startUs: int, endUs: int, ghost t: Title)
      requires Valid() && gop > 0 && video.unitTimeUs > 0 && audio.unitTimeUs > 0
      modifies this`log, this`audioLog, info, audioInfo
      ensures Valid() && log == [] && audioLog == []
      ensures info.startSampleNo == KeyAt(true, gop, video, startUs) && info.endSampleNo == SampleAt(video, endUs)
      ensures audioInfo.startSampleNo == KeyAt(false, gop, audio, startUs)
      ensures audioInfo.endSampleNo == SampleAt(audio, endUs)
      ensures info.curSampleNo == info.startSampleNo && audioInfo.curSampleNo == audioInfo.startSampleNo
      ensures session.Abs() == Init && t.first == info.startSampleNo && t.audioFirst == audioInfo.startSampleNo ==>
        Started() && Now() == Begin(t, rtpHandler.camStreams, rtpHandler.audioStream)
    {
      info.startSampleNo := KeyAt(true, gop, video, startUs);
      info.endSampleNo := SampleAt(video, endUs);
      info.curSampleNo := info.startSampleNo;
      audioInfo.startSampleNo := KeyAt(false, gop, audio, startUs);
      audioInfo.endSampleNo := SampleAt(audio, endUs);
      audioInfo.curSampleNo := audioInfo.startSampleNo;
      log, audioLog := [], [];
    }

    /** getNextVideoSample: read the sample at the cursor and advance it; a list access may throw. */
    method GetNextVideoSample(cfg: Settings, ghost gop: int, ghost lists: seq<NotTx>, hybridMetaMap: HybridMap,
                              camId: int, cache: seq<Views>, ghost t: Title) returns (threw: bool)
      requires Valid() && !session.isPaused && session.allocatedBytesForSample < MAX_CLIENT_BUFFER_SIZE
      requires ValidSettings(cfg) && gop > 0 && (cfg.gops != [] ==> cfg.gops[0] == gop)
      requires hybridMetaMap == RecordAll(gop, lists) && Int32(camId)
      requires var entry := EntryOf(cache, camId, info.curSampleNo);
        entry.Some? ==> Int32(info.curSampleNo) && ValidInfo(entry.value.0) && ValidInfo(entry.value.1)
      modifies this`readLastVideoSample, this`log, this`calls, info`curSampleNo, session, rtpHandler`camStreams
      ensures Valid()
      ensures var n := old(info.curSampleNo);
        threw <==> !old(info.IsDone()) && 0 <= camId < |cache|
                   && !(0 <= n < |cache[camId].fronts| && n < |cache[camId].rears|)
      ensures !threw ==> Abs() == ReaderStep(old(Abs()), Tick(true))
      ensures threw ==> Abs() == old(Abs())
      ensures threw || old(info.IsDone()) ==>
        && session.Abs() == old(session.Abs()) && calls == old(calls)
        && rtpHandler.camStreams == old(rtpHandler.camStreams)
      ensures !threw && !old(info.IsDone()) ==>
        var n := old(info.curSampleNo);
        var front := if 0 <= camId < |cache| then cache[camId].fronts[n] else VideoInfo([], 0, 0, 0);
        var rear := if 0 <= camId < |cache| then cache[camId].rears[n] else VideoInfo([], 0, 0, 0);
        var call := VideoRead(old(rtpHandler.camStreams), cfg, gop, lists, front, rear, camId, n);
        && GoodRead(call) && calls == old(calls) + [call]
        && session.Abs() == FinishStrand(Apply(old(session.Abs()), BeginJob(JobOf(call))))
        && session.jobs == old(session.jobs) + [JobOf(call)]
      ensures old(Started()) && ValidTitle(t) && Shows(t, cfg, lists, camId, cache) ==>
        Started() && Now() == VideoTask(t, old(Now()))
    {
      if info.IsDone() {
        readLastVideoSample := true;
        return false;
      }
      var sampleNo := info.curSampleNo;
      var entry := EntryOf(cache, camId, sampleNo);
      if entry == None {
        return true;
      }
      var (front, rear) := entry.value;
      ReadAtCursor(cfg, gop, lists, hybridMetaMap, camId, front, rear, t);
      return false;
    }

    /** Reads the sample at the cursor, whose entries were found, and moves on. */
    method ReadAtCursor(cfg: Settings, ghost gop: int, ghost lists: seq<NotTx>, hybridMetaMap: HybridMap, camId: int,
                        front: VideoInfo, rear: VideoInfo, ghost t: Title)
      requires Valid() && Enabled(session.Abs(), BeginJob([])) && !info.IsDone()
      requires gop > 0 && hybridMetaMap == RecordAll(gop, lists)
      requires GoodRead(VideoRead(rtpHandler.camStreams, cfg, gop, lists, front, rear, camId, info.curSampleNo))
      modifies this`log, this`calls, info`curSampleNo, session, rtpHandler`camStreams
      ensures Valid() && Abs() == ReaderStep(old(Abs()), Tick(true))
      ensures
        var n := old(info.curSampleNo);
        var call := VideoRead(old(rtpHandler.camStreams), cfg, gop, lists, front, rear, camId, n);
        && GoodRead(call) && calls == old(calls) + [call]
        && session.Abs() == FinishStrand(Apply(old(session.Abs()), BeginJob(JobOf(call))))
        && session.jobs == old(session.jobs) + [JobOf(call)]
      ensures
        var n := old(info.curSampleNo);
        && old(Started()) && ValidTitle(t) && t.last == info.endSampleNo + 1
        && t.cfg == cfg && t.lists == lists && t.camId == camId && t.fronts[n] == front && t.rears[n] == rear ==>
          Started() && Now() == VideoTask(t, old(Now()))
    {
      var sampleNo := info.curSampleNo;
      ghost var call := VideoRead(rtpHandler.camStreams, cfg, gop, lists, front, rear, camId, sampleNo);
      JobStaysReachable(session.Abs(), call);
      ReadVideo(cfg, gop, lists, hybridMetaMap, camId, sampleNo, front, rear);
      info.curSampleNo := info.curSampleNo + 1;
      log := log + [sampleNo];
      calls := calls + [call];
    }

    /** The call of readVideoSample. */
    method ReadVideo(cfg: Settings, ghost gop: int, ghost lists: seq<NotTx>, hybridMetaMap: HybridMap, camId: int,
                     sampleNo: int, front: VideoInfo, rear: VideoInfo)
      requires Valid() && Enabled(session.Abs(), BeginJob([]))
      requires gop > 0 && hybridMetaMap == RecordAll(gop, lists)
      requires GoodRead(VideoRead(rtpHandler.camStreams, cfg, gop, lists, front, rear, camId, sampleNo))
      modifies session, rtpHandler`camStreams
      ensures session.Abs() == FinishStrand(Apply(old(session.Abs()), BeginJob(
        JobOf(VideoRead(old(rtpHandler.camStreams), cfg, gop, lists, front, rear, camId, sampleNo)))))
      ensures rtpHandler.camStreams
        == StreamsAfterJob(old(rtpHandler.camStreams), cfg, hybridMetaMap, front, rear, camId, sampleNo)
    {
      RefCountExactAndNoDanglingPointer(session.Abs());
      session.BeginReading(VideoJob(rtpHandler.camStreams, cfg, hybridMetaMap, front, rear, camId, sampleNo));
      rtpHandler.ReadVideoSample(session, cfg, hybridMetaMap, front, rear, camId, sampleNo);
    }

    method GetNextAudioSample(hybridMetaMap: HybridMap, cache: seq<RtpMeta>, ghost t: Title) returns (threw: bool)
      requires Valid() && !session.isPaused && session.allocatedBytesForSample < MAX_CLIENT_BUFFER_SIZE
      requires |cache| <= 0x8000_0000
      modifies this`readLastAudioSample, this`audioLog, this`calls
      modifies audioInfo`curSampleNo, session, rtpHandler`audioStream
      ensures Valid()
      ensures threw <==> !old(audioInfo.IsDone()) && !(0 <= old(audioInfo.curSampleNo) < |cache|)
      ensures !threw ==> AudioAbs() == ReaderStep(old(AudioAbs()), Tick(true))
      ensures threw ==> AudioAbs() == old(AudioAbs())
      ensures threw || old(audioInfo.IsDone()) ==>
        && session.Abs() == old(session.Abs()) && calls == old(calls)
        && rtpHandler.audioStream == old(rtpHandler.audioStream)
      ensures !threw && !old(audioInfo.IsDone()) ==>
        var n := old(audioInfo.curSampleNo);
        var call := AudioRead(hybridMetaMap, old(rtpHandler.audioStream), n, cache[n].offset, cache[n].len);
        && GoodRead(call) && calls == old(calls) + [call]
        && session.Abs() == FinishStrand(Apply(old(session.Abs()), BeginJob(JobOf(call))))
        && session.jobs == old(session.jobs) + [JobOf(call)]
      ensures old(Started()) && ValidTitle(t) && Sounds(t, hybridMetaMap, cache) ==>
        Started() && Now() == Playback.AudioRead(t, old(Now()))
    {
      if audioInfo.IsDone() {
        readLastAudioSample := true;
        return false;
      }
      var sampleNo := audioInfo.curSampleNo;
      if !(0 <= sampleNo < |cache|) {
        return true;
      }
      var meta := cache[sampleNo];
      ghost var call := AudioRead(hybridMetaMap, rtpHandler.audioStream, sampleNo, meta.offset, meta.len);
      JobStaysReachable(session.Abs(), call);
      ReadAudio(hybridMetaMap, sampleNo, meta);
      audioInfo.curSampleNo := audioInfo.curSampleNo + 1;
      audioLog := audioLog + [sampleNo];
      calls := calls + [call];
      return false;
    }

    /** The call of readAudioSample. */
    method ReadAudio(hybridMetaMap: HybridMap, sampleNo: int, meta: RtpMeta)
      requires Valid() && Enabled(session.Abs(), BeginJob([])) && Int32(sampleNo)
      modifies session, rtpHandler`audioStream
      ensures session.Abs() == FinishStrand(Apply(old(session.Abs()), BeginJob(
        JobOf(AudioRead(hybridMetaMap, old(rtpHandler.audioStream), sampleNo, meta.offset, meta.len)))))
      ensures rtpHandler.audioStream
        == AudioStreamAfter(hybridMetaMap, old(rtpHandler.audioStream), meta.offset, meta.len)
    {
      RefCountExactAndNoDanglingPointer(session.Abs());
      session.BeginReading(AudioJob(hybridMetaMap, rtpHandler.audioStream, sampleNo, meta.offset, meta.len));
      rtpHandler.ReadAudioSample(session, hybridMetaMap, sampleNo, meta.offset, meta.len);
    }

    /** Every job begun so far was read from the index, and no read is larger than so many bytes. */
    ghost predicate Bounded(largest: nat)
      reads this, session
    {
      Valid() && JobsAreReads(session.jobs, calls, largest)
    }

    /** One round of a video reading task: the gate, then the sample at the cursor. */
    method VideoSampleReadingTask(cfg: Settings, ghost gop: int, ghost lists: seq<NotTx>, hybridMetaMap: HybridMap,
                                  camId: int, cache: seq<Views>, ghost audio: seq<RtpMeta>, ghost largest: nat,
                                  ghost t: Title)
      returns (threw: bool)
      requires Bounded(largest) && GoodCache(cache, audio, largest)
      requires ValidSettings(cfg) && gop > 0 && (cfg.gops != [] ==> cfg.gops[0] == gop)
      requires hybridMetaMap == RecordAll(gop, lists) && Int32(camId) && Int32(info.curSampleNo)
      modifies this`readLastVideoSample, this`log, this`calls, info`curSampleNo, session, rtpHandler`camStreams
      ensures Bounded(largest) && session.allocatedBytesForSample < 5 * 1024 * 1024 + largest
      ensures threw ==> Abs() == old(Abs()) && calls == old(calls)
      ensures !threw ==>
        Abs() == ReaderStep(old(Abs()), Tick(old(session.allocatedBytesForSample) < MAX_CLIENT_BUFFER_SIZE))
      ensures old(session.allocatedBytesForSample) >= MAX_CLIENT_BUFFER_SIZE ==> session.Abs() == old(session.Abs())
      ensures info.curSampleNo != old(info.curSampleNo) && 0 <= camId < |cache| ==>
        var n := old(info.curSampleNo);
        && 0 <= n < |cache[camId].fronts| && n < |cache[camId].rears|
        && calls == old(calls) + [VideoRead(old(rtpHandler.camStreams), cfg, gop, lists,
                                            cache[camId].fronts[n], cache[camId].rears[n], camId, n)]
      ensures old(Started()) && ValidTitle(t) && Shows(t, cfg, lists, camId, cache) ==>
        Started() && Now() == VideoTask(t, old(Now()))
    {
      threw := false;
      var allowed := session.IsNewSampleAllocatable();
      if !session.isPaused && allowed {
        ghost var jobs, before := session.jobs, calls;
        ghost var entry := EntryOf(cache, camId, info.curSampleNo);
        if entry.Some? { EntryIsGood(cache, audio, largest, camId, info.curSampleNo); }
        threw := GetNextVideoSample(cfg, gop, lists, hybridMetaMap, camId, cache, t);
        if calls != before { OneMoreRead(jobs, before, largest, calls[|before|]); }
      }
      ReadersStayInBudget(session.Abs(), calls, largest);
    }

    /** The gate and the sample at the audio cursor. */
    method ReadGatedAudio(hybridMetaMap: HybridMap, cache: seq<RtpMeta>, ghost largest: nat, ghost t: Title)
      returns (threw: bool)
      requires Bounded(largest) && |cache| <= 0x8000_0000
      requires forall i :: 0 <= i < |cache| ==> AtLeastMeta(cache[i].len) <= largest
      modifies this`readLastAudioSample, this`audioLog, this`calls
      modifies audioInfo`curSampleNo, session, rtpHandler`audioStream
      ensures Bounded(largest)
      ensures threw ==> AudioAbs() == old(AudioAbs()) && session.Abs() == old(session.Abs())
      ensures !threw ==>
        AudioAbs() == ReaderStep(old(AudioAbs()), Tick(old(session.allocatedBytesForSample) < MAX_CLIENT_BUFFER_SIZE))
      ensures old(Started()) && ValidTitle(t) && Sounds(t, hybridMetaMap, cache) ==>
        Started() && Now() == Playback.AudioRead(t, old(Now()))
    {
      threw := false;
      var allowed := session.IsNewSampleAllocatable();
      if !session.isPaused && allowed {
        ghost var jobs, before := session.jobs, calls;
        threw := GetNextAudioSample(hybridMetaMap, cache, t);
        if calls != before { OneMoreRead(jobs, before, largest, calls[|before|]); }
      }
    }

    /** One round of the audio reading task: the gate, the sample, then the reclaimer. */
    method AudioSampleReadingTask(hybridMetaMap: HybridMap, cache: seq<RtpMeta>, ghost largest: nat, ghost t: Title)
      returns (threw: bool)
      requires Bounded(largest) && |cache| <= 0x8000_0000
      requires forall i :: 0 <= i < |cache| ==> AtLeastMeta(cache[i].len) <= largest
      modifies this`readLastAudioSample, this`audioLog, this`calls
      modifies audioInfo`curSampleNo, session, rtpHandler`audioStream
      ensures Bounded(largest) && session.allocatedBytesForSample < 5 * 1024 * 1024 + largest
      ensures threw ==> AudioAbs() == old(AudioAbs()) && session.Abs() == old(session.Abs())
      ensures !threw ==>
        && AudioAbs() == ReaderStep(old(AudioAbs()),
                                    Tick(old(session.allocatedBytesForSample) < MAX_CLIENT_BUFFER_SIZE))
        && !FrontIsDangling(session.Abs())
      ensures !threw && old(Started()) && ValidTitle(t) && Sounds(t, hybridMetaMap, cache) ==>
        Started() && Now() == AudioTask(t, old(Now()))
    {
      threw := ReadGatedAudio(hybridMetaMap, cache, largest, t);
      ReadersStayInBudget(session.Abs(), calls, largest);
      if !threw {
        ghost var s := session.Abs();
        session.DeleteDanglingRtps();
        ReclaimStaysReachable(s);
        ghost var k := ReclaimAllDrops(s);
      }
    }

    /**
     * The burst after a camera switch: 25 gated reads in one strand task.  Fewer
     * are made only when paused, at the end of the range, with the budget used up,
     * or after an exception.
     */
    method StartPlayForCamSwitching(cfg: Settings, ghost gop: int, ghost lists: seq<NotTx>, hybridMetaMap: HybridMap,
                                    camId: int, cache: seq<Views>, ghost audio: seq<RtpMeta>, ghost largest: nat,
                                    ghost t: Title)
      returns (threw: bool)
      requires Bounded(largest) && GoodCache(cache, audio, largest)
      requires ValidSettings(cfg) && gop > 0 && (cfg.gops != [] ==> cfg.gops[0] == gop)
      requires hybridMetaMap == RecordAll(gop, lists) && Int32(camId)
      requires Int32(info.curSampleNo) && Int32(info.curSampleNo + 25)
      modifies this`readLastVideoSample, this`log, this`calls, info`curSampleNo, session, rtpHandler`camStreams
      ensures Bounded(largest) && session.allocatedBytesForSample < 5 * 1024 * 1024 + largest
      ensures session.isPaused == old(session.isPaused)
      ensures old(info.curSampleNo) <= info.curSampleNo <= old(info.curSampleNo) + 25
      ensures log == old(log) + Range(old(info.curSampleNo), info.curSampleNo)
      ensures info.curSampleNo < old(info.curSampleNo) + 25 ==>
        || threw || session.isPaused || info.IsDone()
        || session.allocatedBytesForSample >= MAX_CLIENT_BUFFER_SIZE
      ensures !threw && old(Started()) && ValidTitle(t) && Shows(t, cfg, lists, camId, cache) ==>
        Started() && Now() == VideoTasks(t, old(Now()), 25)
    {
      threw := false;
      var i := 0;
      ghost var first := Abs();
      ghost var start := if Started() then Now() else Begin(t, map[], rtpHandler.audioStream);
      while i < FAST_TX_FACTOR_FOR_CAM_SWITCHING && !threw
        invariant 0 <= i <= FAST_TX_FACTOR_FOR_CAM_SWITCHING && Bounded(largest)
        invariant Extends(first, Abs(), i) && (!threw ==> Keeps(first, Abs(), i, session.allocatedBytesForSample))
        invariant !threw && old(Started()) && ValidTitle(t) && Shows(t, cfg, lists, camId, cache) ==>
          Started() && Now() == VideoTasks(t, start, i)
      {
        threw := BurstRound(cfg, gop, lists, hybridMetaMap, camId, cache, audio, largest, t, first, start, i);
        i := i + 1;
      }
      ReadersStayInBudget(session.Abs(), calls, largest);
    }

    /** Round i of the burst. */
    method BurstRound(cfg: Settings, ghost gop: int, ghost lists: seq<NotTx>, hybridMetaMap: HybridMap,
                      camId: int, cache: seq<Views>, ghost audio: seq<RtpMeta>, ghost largest: nat, ghost t: Title,
                      ghost first: Cursor, ghost start: Player, ghost i: nat)
      returns (threw: bool)
      requires Bounded(largest) && GoodCache(cache, audio, largest)
      requires ValidSettings(cfg) && gop > 0 && (cfg.gops != [] ==> cfg.gops[0] == gop)
      requires hybridMetaMap == RecordAll(gop, lists) && Int32(camId) && Int32(info.curSampleNo)
      requires Extends(first, Abs(), i) && Keeps(first, Abs(), i, session.allocatedBytesForSample)
      modifies this`readLastVideoSample, this`log, this`calls, info`curSampleNo, session, rtpHandler`camStreams
      ensures Bounded(largest) && Extends(first, Abs(), i + 1)
      ensures !threw ==> Keeps(first, Abs(), i + 1, session.allocatedBytesForSample)
      ensures
        && old(Started()) && ValidTitle(t) && Shows(t, cfg, lists, camId, cache)
        && old(Now()) == VideoTasks(t, start, i) ==>
          Started() && Now() == VideoTasks(t, start, i + 1)
    {
      ghost var before, used := Abs(), session.allocatedBytesForSample;
      threw := VideoSampleReadingTask(cfg, gop, lists, hybridMetaMap, camId, cache, audio, largest, t);
      TickExtends(first, before, i, used, session.allocatedBytesForSample);
    }

    /** PLAY with a PlayInfo header: the last samples and the last packet the client reports. */
    method ResumeFromPause(receivedVideoSampleIdx: int, receivedAudioSampleIdx: int, receivedVideoRtpIdx: int)
      requires Valid()
      modifies this`videoRtpRemoveCnt, info`curSampleNo, audioInfo`curSampleNo, session
      ensures Valid() && session.Abs() == Apply(old(session.Abs()), SetPaused(false)) && !session.isPaused
      ensures Abs() == ReaderStep(old(Abs()), Resume(receivedVideoSampleIdx))
      ensures AudioAbs() == ReaderStep(old(AudioAbs()), Resume(receivedAudioSampleIdx))
      ensures videoRtpRemoveCnt ==
        if old(session.isPaused) && receivedVideoRtpIdx > 0 then receivedVideoRtpIdx else old(videoRtpRemoveCnt)
      ensures
        && old(Started()) && old(session.isPaused)
        && receivedVideoSampleIdx >= -1 && receivedAudioSampleIdx >= -1 ==>
          Started() && Now() == Resumed(old(Now()), receivedVideoSampleIdx, receivedAudioSampleIdx)
    {
      if session.isPaused {
        MoveCursors(receivedVideoSampleIdx, receivedAudioSampleIdx);
        if receivedVideoRtpIdx > 0 {
          videoRtpRemoveCnt := receivedVideoRtpIdx;
        }
      }
      SetPauseStatus(false);
    }

    /** Both cursors go to the sample after the one reported. */
    method MoveCursors(receivedVideoSampleIdx: int, receivedAudioSampleIdx: int)
      requires info != audioInfo
      modifies info`curSampleNo, audioInfo`curSampleNo
      ensures info.curSampleNo
        == if receivedVideoSampleIdx == -1 then old(info.curSampleNo) else receivedVideoSampleIdx + 1
      ensures audioInfo.curSampleNo
        == if receivedAudioSampleIdx == -1 then old(audioInfo.curSampleNo) else receivedAudioSampleIdx + 1
    {
      if receivedVideoSampleIdx != INVALID {
        info.SetCurSampleNo(receivedVideoSampleIdx + 1);
      }
      if receivedAudioSampleIdx != INVALID {
        audioInfo.SetCurSampleNo(receivedAudioSampleIdx + 1);
      }
    }

    method SetPauseStatus(paused: bool)
      requires Valid()
      modifies session
      ensures Valid() && session.Abs() == Apply(old(session.Abs()), SetPaused(paused)) && session.isPaused == paused
    {
      ReachableStep(session.Abs(), SetPaused(paused));
      session.UpdatePauseStatus(paused);
    }

    /** PAUSE; a second one changes nothing. */
    method PausePlay()
      requires Valid()
      modifies session
      ensures Valid() && session.Abs() == Apply(old(session.Abs()), SetPaused(true)) && session.isPaused
      ensures Abs() == ReaderStep(old(Abs()), Pause) && AudioAbs() == ReaderStep(old(AudioAbs()), Pause)
      ensures old(Started()) ==>
        Started() && Now() == old(Now()).(pipe := Apply(old(Now()).pipe, SetPaused(true)))
    {
      if session.isPaused {
        return;
      }
      SetPauseStatus(true);
    }
  }

  /**
   * A stream handler that is where some run of the playing machine leads - as each
   * of its tasks keeps it - has written the files, once its pipeline is drained.
   */
  lemma HandlerWritesTheFiles(h: StreamHandler, t: Title, streams: map<int, seq<Stream>>, audioStream: Stream)
    requires h.Started() && Playable(t, streams, audioStream) && Played(t, streams, audioStream, h.Now())
    requires Drained(h.session.Abs()) && t.cfg.pFrameTx && t.lists == []
    ensures var front, rear := streams[t.camId][0].bytes, streams[t.camId][1].bytes;
      && AllInFile(front, t.fronts) && AllInFile(rear, t.rears) && Within(h.log, t.last)
      && AllInBounds(h.session.sentLog) && h.session.socket == Payloads(h.session.sentLog)
      && MediaPayloads(h.session.sentLog, Video)
        == Flatten(FrontRear(front, rear, t.fronts, t.rears, h.log))
  {
    FullStreamingWritesTheFiles(t, streams, audioStream, h.Now());
    PlayedKeeps(t, streams, audioStream, h.Now());
    ReachableInv(h.session.Abs());
  }

  // ------------------------------------------ plays with pauses and resumes

  /** What the cursor machine sees of a player's readers. */
  function CursorOf(t: Title, p: Player): Cursor
  {
    Cursor(t.first, t.last - 1, p.cur, p.pipe.paused, false, p.log)
  }

  function AudioCursorOf(t: Title, p: Player): Cursor
  {
    Cursor(t.audioFirst, t.audioLast - 1, p.audioCur, p.pipe.paused, false, p.audioLog)
  }

  /** No resume of the play reports a sample that was never sent. */
  ghost predicate TruthfulPlay(t: Title, p: Player, events: seq<PlayEvent>)
    requires ValidTitle(t)
    decreases |events|
  {
    events != [] && CanPlay(t, p, events[0]) ==>
      && (events[0].ResumeAfter? ==>
            Truthful(CursorOf(t, p), Resume(events[0].video)) && Truthful(AudioCursorOf(t, p), Resume(events[0].audio)))
      && TruthfulPlay(t, Play(t, p, events[0]), events[1..])
  }

  /** Each event of a play is one of the cursor machine's, or none of its business. */
  lemma PlayMovesCursor(t: Title, p: Player, e: PlayEvent)
    requires ValidTitle(t) && CanPlay(t, p, e)
    ensures var c, d := CursorOf(t, p), CursorOf(t, Play(t, p, e));
      match e
      case VideoTick => d == ReaderStep(c, Tick(true))
      case AudioTick => d == c
      case ResumeAfter(v, _) => d == ReaderStep(c, Resume(v))
      case Step(e') => d == if e'.SetPaused? then ReaderStep(c, if e'.value then Pause else Resume(-1)) else c
    ensures var c, d := AudioCursorOf(t, p), AudioCursorOf(t, Play(t, p, e));
      match e
      case VideoTick => d == c
      case AudioTick => d == ReaderStep(c, Tick(true))
      case ResumeAfter(_, a) => d == ReaderStep(c, Resume(a))
      case Step(e') => d == if e'.SetPaused? then ReaderStep(c, if e'.value then Pause else Resume(-1)) else c
  {
  }

  lemma {:induction false} TruthfulPlayKeepsInv(t: Title, p: Player, events: seq<PlayEvent>)
    requires ValidTitle(t) && TruthfulPlay(t, p, events) && PlayAll(t, p, events).Some?
    requires ReaderInv(CursorOf(t, p)) && ReaderInv(AudioCursorOf(t, p))
    ensures var q := PlayAll(t, p, events).value; ReaderInv(CursorOf(t, q)) && ReaderInv(AudioCursorOf(t, q))
    decreases |events|
  {
    if events != [] {
      var e := events[0];
      PlayMovesCursor(t, p, e);
      match e {
        case VideoTick => ReaderStepKeepsInv(CursorOf(t, p), Tick(true));
        case AudioTick => ReaderStepKeepsInv(AudioCursorOf(t, p), Tick(true));
        case ResumeAfter(v, a) =>
          ReaderStepKeepsInv(CursorOf(t, p), Resume(v));
          ReaderStepKeepsInv(AudioCursorOf(t, p), Resume(a));
        case Step(_) =>
      }
      TruthfulPlayKeepsInv(t, Play(t, p, e), events[1..]);
    }
  }

  /**
   * The client pauses and resumes as often as it likes, each time reporting samples
   * it was sent, while audio is read, packets are sent and freed, in any
   * interleaving.  When both readers have reached their end and the pipeline has
   * drained, every sample of the range was read, none was jumped over, and the
   * bytes written are what the samples call for in the order of reading.
   */
  lemma ResumedPlayWritesEverySample(t: Title, streams: map<int, seq<Stream>>, audioStream: Stream,
                                     events: seq<PlayEvent>, p: Player)
    requires Playable(t, streams, audioStream) && PlayAll(t, Begin(t, streams, audioStream), events) == Some(p)
    requires TruthfulPlay(t, Begin(t, streams, audioStream), events)
    requires Drained(p.pipe) && p.cur == t.last && p.audioCur == t.audioLast
    ensures var front, rear := streams[t.camId][0].bytes, streams[t.camId][1].bytes;
      && AllInFile(front, t.fronts) && AllInFile(rear, t.rears) && Within(p.log, t.last)
      && AllInBounds(p.pipe.sentLog)
      && MediaPayloads(p.pipe.sentLog, Video)
        == Flatten(RunOnWire(t.cfg, t.lists, t.camId, t.fronts, t.rears, front, rear, p.log))
    ensures forall n :: t.first <= n < t.last ==> n in p.log
    ensures forall n :: t.audioFirst <= n < t.audioLast ==> n in p.audioLog
    ensures NoSkip(t.first, t.last - 1, p.log) && NoSkip(t.audioFirst, t.audioLast - 1, p.audioLog)
  {
    assert Played(t, streams, audioStream, p);
    PlayedRunIsOnWire(t, streams, audioStream, p);
    TruthfulPlayKeepsInv(t, Begin(t, streams, audioStream), events);
  }

  /** At most n samples were read, one after the other. */
  predicate Extends(first: Cursor, c: Cursor, n: nat)
  {
    && c.paused == first.paused
    && first.cur <= c.cur <= first.cur + n && c.log == first.log + Range(first.cur, c.cur)
  }

  /** Every round read a sample, unless something holds the reader back, and then it still does. */
  predicate Keeps(first: Cursor, c: Cursor, n: nat, used: int)
  {
    c.end == first.end && (c.cur == first.cur + n || c.paused || c.cur > c.end || used >= MAX_CLIENT_BUFFER_SIZE)
  }

  lemma TickExtends(first: Cursor, c: Cursor, n: nat, used: int, after: int)
    requires Extends(first, c, n) && Keeps(first, c, n, used)
    requires used >= MAX_CLIENT_BUFFER_SIZE ==> after == used
    ensures var t := ReaderStep(c, Tick(used < MAX_CLIENT_BUFFER_SIZE));
      Extends(first, c, n + 1) && Extends(first, t, n + 1) && Keeps(first, t, n + 1, after)
  {
    assert Range(first.cur, c.cur + 1) == Range(first.cur, c.cur) + [c.cur];
  }

  /** What a stream's times are counted with. */
  datatype Timing = Timing(playTimeUs: int, maxSampleNo: nat, unitTimeUs: int)

  function KeyAt(isVideo: bool, gop: int, t: Timing, timeUs: int): int
    requires gop > 0 && t.unitTimeUs > 0
  {
    FindKeySampleNumber(isVideo, gop, t.playTimeUs, t.maxSampleNo, t.unitTimeUs, timeUs, NextKey)
  }

  function SampleAt(t: Timing, timeUs: int): nat
    requires t.unitTimeUs > 0
  {
    FindSampleNumber(t.playTimeUs, t.maxSampleNo, t.unitTimeUs, timeUs)
  }

  /**
   * Where a play request starts and ends on the audio: at the samples nearest to
   * its times, and outside the play time at the last key and the last sample.
   */
  lemma AudioPlayRange(gop: int, t: Timing, startUs: int, endUs: int)
    requires gop > 0 && t.unitTimeUs > 0
    ensures var start := KeyAt(false, gop, t, startUs);
      if 0 <= startUs < t.playTimeUs then
        start >= 0 && -t.unitTimeUs < 2 * (start * t.unitTimeUs - startUs) <= t.unitTimeUs
      else
        IsKey(start, gop) && start <= t.maxSampleNo < start + gop
    ensures var end := SampleAt(t, endUs);
      if 0 <= endUs < t.playTimeUs then -t.unitTimeUs < 2 * (end * t.unitTimeUs - endUs) <= t.unitTimeUs
      else end == t.maxSampleNo
  {
    RangeEnd(t.playTimeUs, t.maxSampleNo, t.unitTimeUs, endUs);
    if 0 <= startUs < t.playTimeUs {
      AudioSeekIsNearest(gop, t.playTimeUs, t.maxSampleNo, t.unitTimeUs, startUs, NextKey);
    } else {
      OutOfRangeSeeksToLastKey(false, gop, t.playTimeUs, t.maxSampleNo, t.unitTimeUs, startUs, NextKey);
    }
  }

  /** A read, taken to its end, leaves the pipeline in a reachable state with the strand idle. */
  lemma JobStaysReachable(s: State, r: Read)
    requires Reachable(s) && Enabled(s, BeginJob([])) && GoodRead(r)
    ensures var t := FinishStrand(Apply(s, BeginJob(JobOf(r))));
      Reachable(t) && StrandIdle(t) && t.jobs == s.jobs + [JobOf(r)] && t.paused == s.paused
  {
    ReadWithin(r);
    ReachableStep(s, BeginJob(JobOf(r)));
    StrandFinishes(Apply(s, BeginJob(JobOf(r))));
  }
}
