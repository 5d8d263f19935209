/** Playing a range of samples: the video reader, the audio reader and the pipeline as one state machine. */
module Playback {
  import opened Common
  import opened Pipeline
  import opened Delivery
  import opened Atomicity
  import opened SampleIndex
  import opened HybridMeta
  import opened RtpHandling
  import opened Streaming
  import opened Reads

  /** What stays fixed while video samples first..last-1 of a camera, and audio samples, are played. */
  datatype Title = Title(cfg: Settings, lists: seq<NotTx>, camId: int, fronts: seq<VideoInfo>, rears: seq<VideoInfo>,
                         frontTotal: nat, rearTotal: nat, first: nat, last: nat,
                         audio: seq<RtpMeta>, audioFirst: nat, audioLast: nat)

  /** The pipeline, the files, and of both readers the cursor and the samples read so far. */
  datatype Player = Player(pipe: State, cur: nat, log: seq<int>, streams: map<int, seq<Stream>>,
                           audioCur: nat, audioLog: seq<int>, audioStream: Stream)

  /** A tick of either reader, a resume with the last samples the client reports, or a step of the pipeline. */
  datatype PlayEvent = VideoTick | AudioTick | ResumeAfter(video: int, audio: int) | Step(e: Event)

  ghost predicate ValidTitle(t: Title)
  {
    && t.first <= t.last <= |t.fronts| && t.last <= |t.rears| && t.audioFirst <= t.audioLast <= |t.audio|
    && ValidSettings(t.cfg) && t.cfg.gops != [] && NonNegative(t.fronts) && NonNegative(t.rears)
  }

  predicate GoodAudio(s: Stream, audio: seq<RtpMeta>)
  {
    s.open && forall i :: 0 <= i < |audio| ==> Holds(s, audio[i].offset, audio[i].len)
  }

  /** And the files hold what the index says. */
  ghost predicate Playable(t: Title, streams: map<int, seq<Stream>>, audioStream: Stream)
  {
    && ValidTitle(t) && !audioStream.failed && GoodAudio(audioStream, t.audio)
    && GoodViews(streams, t.cfg, t.fronts, t.rears, t.camId, t.frontTotal, t.rearTotal)
  }

  function MapOf(t: Title): HybridMap
    requires ValidSettings(t.cfg) && t.cfg.gops != []
  {
    RecordAll(t.cfg.gops[0], t.lists)
  }

  ghost predicate CanPlay(t: Title, p: Player, e: PlayEvent)
  {
    match e
    case VideoTick => Enabled(p.pipe, BeginJob([])) && p.cur < t.last
    case AudioTick => Enabled(p.pipe, BeginJob([])) && p.audioCur < t.audioLast
    case ResumeAfter(v, a) =>
      StrandIdle(p.pipe) && p.pipe.paused && 0 <= v + 1 <= t.last && 0 <= a + 1 <= t.audioLast
    case Step(e) => !e.BeginJob? && Enabled(p.pipe, e)
  }

  /** Both cursors go to the sample after the one reported; -1 reports none. */
  function Resumed(p: Player, v: int, a: int): Player
    requires StrandIdle(p.pipe) && v >= -1 && a >= -1
  {
    p.(pipe := Apply(p.pipe, SetPaused(false)),
       cur := if v == -1 then p.cur else v + 1, audioCur := if a == -1 then p.audioCur else a + 1)
  }

  ghost function VideoJobAt(t: Title, p: Player): seq<Sample>
    requires ValidTitle(t) && p.cur < t.last
  {
    VideoJob(p.streams, t.cfg, MapOf(t), t.fronts[p.cur], t.rears[p.cur], t.camId, p.cur)
  }

  ghost function AudioJobAt(t: Title, p: Player): seq<Sample>
    requires ValidTitle(t) && p.audioCur < t.audioLast
  {
    AudioJob(MapOf(t), p.audioStream, p.audioCur, t.audio[p.audioCur].offset, t.audio[p.audioCur].len)
  }

  ghost function Play(t: Title, p: Player, e: PlayEvent): Player
    requires ValidTitle(t) && CanPlay(t, p, e)
  {
    match e
    case VideoTick =>
      p.(pipe := Apply(p.pipe, BeginJob(VideoJobAt(t, p))), cur := p.cur + 1, log := p.log + [p.cur],
         streams := StreamsAfterJob(p.streams, t.cfg, MapOf(t), t.fronts[p.cur], t.rears[p.cur], t.camId, p.cur))
    case AudioTick =>
      p.(pipe := Apply(p.pipe, BeginJob(AudioJobAt(t, p))),
         audioCur := p.audioCur + 1, audioLog := p.audioLog + [p.audioCur],
         audioStream := AudioStreamAfter(MapOf(t), p.audioStream, t.audio[p.audioCur].offset, t.audio[p.audioCur].len))
    case ResumeAfter(v, a) => Resumed(p, v, a)
    case Step(e) => p.(pipe := Apply(p.pipe, e))
  }

  /** The player after a list of events, if every one was possible in turn. */
  ghost function PlayAll(t: Title, p: Player, events: seq<PlayEvent>): Option<Player>
    requires ValidTitle(t)
    decreases |events|
  {
    if events == [] then Some(p)
    else if !CanPlay(t, p, events[0]) then None
    else PlayAll(t, Play(t, p, events[0]), events[1..])
  }

  function Begin(t: Title, streams: map<int, seq<Stream>>, audioStream: Stream): Player
  {
    Player(Init, t.first, [], streams, t.audioFirst, [], audioStream)
  }

  /** Some run of a new session's player leads here. */
  ghost predicate Played(t: Title, streams: map<int, seq<Stream>>, audioStream: Stream, p: Player)
    requires ValidTitle(t)
  {
    exists events :: PlayAll(t, Begin(t, streams, audioStream), events) == Some(p)
  }

  lemma BeginIsPlayed(t: Title, streams: map<int, seq<Stream>>, audioStream: Stream)
    requires ValidTitle(t)
    ensures Played(t, streams, audioStream, Begin(t, streams, audioStream))
  {
    assert PlayAll(t, Begin(t, streams, audioStream), []) == Some(Begin(t, streams, audioStream));
  }

  lemma {:induction false} PlayAllAppend(t: Title, p: Player, xs: seq<PlayEvent>, e: PlayEvent)
    requires ValidTitle(t) && PlayAll(t, p, xs).Some? && CanPlay(t, PlayAll(t, p, xs).value, e)
    ensures PlayAll(t, p, xs + [e]) == Some(Play(t, PlayAll(t, p, xs).value, e))
    decreases |xs|
  {
    if xs == [] {
      assert [e][1..] == [] && xs + [e] == [e];
    } else {
      assert (xs + [e])[1..] == xs[1..] + [e];
      PlayAllAppend(t, Play(t, p, xs[0]), xs[1..], e);
    }
  }

  lemma PlayedStep(t: Title, streams: map<int, seq<Stream>>, audioStream: Stream, p: Player, e: PlayEvent)
    requires ValidTitle(t) && Played(t, streams, audioStream, p) && CanPlay(t, p, e)
    ensures Played(t, streams, audioStream, Play(t, p, e))
  {
    var events :| PlayAll(t, Begin(t, streams, audioStream), events) == Some(p);
    PlayAllAppend(t, Begin(t, streams, audioStream), events, e);
  }

  /** A begun job may run to its end. */
  lemma {:induction false} PlayedToEnd(t: Title, streams: map<int, seq<Stream>>, audioStream: Stream, p: Player)
    requires ValidTitle(t) && Played(t, streams, audioStream, p)
    ensures Played(t, streams, audioStream, p.(pipe := FinishStrand(p.pipe)))
    decreases |p.pipe.toCreate|, 2 * |p.pipe.toPush| + |Slot(p.pipe.handoff)|
  {
    if !StrandIdle(p.pipe) {
      var e := JobStep(p.pipe);
      PlayedStep(t, streams, audioStream, p, Step(e));
      OnlyJobStep(p.pipe, e);
      PlayedToEnd(t, streams, audioStream, p.(pipe := Apply(p.pipe, e)));
    } else {
      assert p.(pipe := FinishStrand(p.pipe)) == p;
    }
  }

  lemma {:induction false} PlayedReclaim(t: Title, streams: map<int, seq<Stream>>, audioStream: Stream, p: Player)
    requires ValidTitle(t) && Played(t, streams, audioStream, p) && StrandIdle(p.pipe)
    ensures Played(t, streams, audioStream, p.(pipe := ReclaimAll(p.pipe)))
    decreases |p.pipe.memQueue|
  {
    if FrontIsDangling(p.pipe) {
      PlayedStep(t, streams, audioStream, p, Step(Reclaim));
      PlayedReclaim(t, streams, audioStream, p.(pipe := Apply(p.pipe, Reclaim)));
    } else {
      assert p.(pipe := ReclaimAll(p.pipe)) == p;
    }
  }

  lemma PlayedTransmit(t: Title, streams: map<int, seq<Stream>>, audioStream: Stream, p: Player)
    requires ValidTitle(t) && Played(t, streams, audioStream, p)
    requires p.pipe.inFlight == None && p.pipe.txQueue != [] && Live(p.pipe, p.pipe.txQueue[0])
    ensures Played(t, streams, audioStream, p.(pipe := Transmit(p.pipe)))
  {
    TransmitIsTwoSteps(p.pipe);
    PlayedStep(t, streams, audioStream, p, Step(Pop));
    PlayedStep(t, streams, audioStream, p.(pipe := Apply(p.pipe, Pop)), Step(WriteAndAccount));
  }

  // ------------------------------------------- whole tasks between two tx steps

  /** One round of a video task: the gate, then the sample at the cursor, read to its end. */
  ghost function VideoTask(t: Title, p: Player): Player
    requires ValidTitle(t)
  {
    if !CanPlay(t, p, VideoTick) then p
    else
      var q := Play(t, p, VideoTick);
      q.(pipe := FinishStrand(q.pipe))
  }

  ghost function AudioRead(t: Title, p: Player): Player
    requires ValidTitle(t)
  {
    if !CanPlay(t, p, AudioTick) then p
    else
      var q := Play(t, p, AudioTick);
      q.(pipe := FinishStrand(q.pipe))
  }

  /** One round of the audio task: the gate, the sample, and the reclaimer. */
  ghost function AudioTask(t: Title, p: Player): Player
    requires ValidTitle(t)
  {
    var q := AudioRead(t, p);
    q.(pipe := ReclaimAll(q.pipe))
  }

  ghost function VideoTasks(t: Title, p: Player, n: nat): Player
    requires ValidTitle(t)
    decreases n
  {
    if n == 0 then p else VideoTask(t, VideoTasks(t, p, n - 1))
  }

  /** Every task leads on from a played state to a played state. */
  lemma TasksArePlayed(t: Title, streams: map<int, seq<Stream>>, audioStream: Stream, p: Player)
    requires ValidTitle(t) && Played(t, streams, audioStream, p) && StrandIdle(p.pipe)
    ensures Played(t, streams, audioStream, VideoTask(t, p)) && Played(t, streams, audioStream, AudioTask(t, p))
    ensures StrandIdle(VideoTask(t, p).pipe) && StrandIdle(AudioTask(t, p).pipe)
    ensures forall b: bool :: Played(t, streams, audioStream, p.(pipe := Apply(p.pipe, SetPaused(b))))
  {
    if CanPlay(t, p, VideoTick) {
      PlayedStep(t, streams, audioStream, p, VideoTick);
      PlayedToEnd(t, streams, audioStream, Play(t, p, VideoTick));
      FinishedIsIdle(Play(t, p, VideoTick).pipe);
    }
    if CanPlay(t, p, AudioTick) {
      PlayedStep(t, streams, audioStream, p, AudioTick);
      PlayedToEnd(t, streams, audioStream, Play(t, p, AudioTick));
      FinishedIsIdle(Play(t, p, AudioTick).pipe);
    }
    PlayedReclaim(t, streams, audioStream, AudioRead(t, p));
    ReclaimedIsIdle(AudioRead(t, p).pipe);
    forall b: bool ensures Played(t, streams, audioStream, p.(pipe := Apply(p.pipe, SetPaused(b)))) {
      PlayedStep(t, streams, audioStream, p, Step(SetPaused(b)));
    }
  }

  /** So does a resume of a paused session, whatever samples of the range it reports. */
  lemma ResumeIsPlayed(t: Title, streams: map<int, seq<Stream>>, audioStream: Stream, p: Player, v: int, a: int)
    requires ValidTitle(t) && Played(t, streams, audioStream, p) && StrandIdle(p.pipe) && p.pipe.paused
    requires -1 <= v < t.last && -1 <= a < t.audioLast
    ensures Played(t, streams, audioStream, Resumed(p, v, a)) && StrandIdle(Resumed(p, v, a).pipe)
  {
    PlayedStep(t, streams, audioStream, p, ResumeAfter(v, a));
  }

  lemma {:induction false} FinishedIsIdle(s: State)
    ensures StrandIdle(FinishStrand(s))
    decreases |s.toCreate|, 2 * |s.toPush| + |Slot(s.handoff)|
  {
    if !StrandIdle(s) {
      OnlyJobStep(s, JobStep(s));
      FinishedIsIdle(Apply(s, JobStep(s)));
    }
  }

  lemma {:induction false} ReclaimedIsIdle(s: State)
    requires StrandIdle(s)
    ensures StrandIdle(ReclaimAll(s))
    decreases |s.memQueue|
  {
    if FrontIsDangling(s) { ReclaimedIsIdle(s.(memQueue := s.memQueue[1..])); }
  }

  lemma {:induction false} VideoTasksArePlayed(t: Title, streams: map<int, seq<Stream>>, audioStream: Stream,
                                               p: Player, n: nat)
    requires ValidTitle(t) && Played(t, streams, audioStream, p) && StrandIdle(p.pipe)
    ensures Played(t, streams, audioStream, VideoTasks(t, p, n)) && StrandIdle(VideoTasks(t, p, n).pipe)
    decreases n
  {
    if n > 0 {
      VideoTasksArePlayed(t, streams, audioStream, p, n - 1);
      TasksArePlayed(t, streams, audioStream, VideoTasks(t, p, n - 1));
    }
  }

  // ------------------------------------------------------- the jobs of a medium

  /** The jobs of one medium among all jobs. */
  function JobsOfMedium(jobs: seq<seq<Sample>>, m: Media): seq<seq<Sample>>
  {
    if jobs == [] then []
    else
      var job := jobs[|jobs| - 1];
      JobsOfMedium(jobs[..|jobs| - 1], m) + if job != [] && job[0].media == m then [job] else []
  }

  lemma JobsOfMediumSnoc(jobs: seq<seq<Sample>>, job: seq<Sample>, m: Media)
    ensures JobsOfMedium(jobs + [job], m)
      == JobsOfMedium(jobs, m) + if job != [] && job[0].media == m then [job] else []
  {
    assert (jobs + [job])[..|jobs|] == jobs;
  }

  predicate OneMedium(job: seq<Sample>)
  {
    forall i :: 0 <= i < |job| ==> job[i].media == job[0].media
  }

  /** Only its own jobs matter for the bytes of a medium. */
  lemma {:induction false} JobsOfMediumBufs(jobs: seq<seq<Sample>>, m: Media)
    requires forall i :: 0 <= i < |jobs| ==> OneMedium(jobs[i])
    ensures Flatten(MediaBufs(Flatten(jobs), m)) == Flatten(MediaBufs(Flatten(JobsOfMedium(jobs, m)), m))
    decreases |jobs|
  {
    if jobs != [] {
      var before, job := jobs[..|jobs| - 1], jobs[|jobs| - 1];
      JobsOfMediumBufs(before, m);
      OneMoreJob(before, job, m);
      UpToLast(jobs);
      if job != [] && job[0].media == m {
        OneMoreJob(JobsOfMedium(before, m), job, m);
      } else {
        OtherMedium(job, m);
        assert JobsOfMedium(jobs, m) == JobsOfMedium(before, m);
      }
    }
  }

  lemma {:induction false} OtherMedium(job: seq<Sample>, m: Media)
    requires forall i :: 0 <= i < |job| ==> job[i].media != m
    ensures MediaBufs(job, m) == []
  {
    if job != [] {
      assert forall i :: 0 <= i < |job| - 1 ==> job[1..][i] == job[i + 1];
      OtherMedium(job[1..], m);
    }
  }

  // --------------------------------------------------------- whole audio runs

  /** The jobs of the audio samples read. */
  function AudioJobs(m: HybridMap, s: Stream, audio: seq<RtpMeta>, log: seq<int>): seq<seq<Sample>>
    requires Within(log, |audio|)
  {
    seq(|log|, i requires 0 <= i < |log| => AudioJob(m, s, log[i], audio[log[i]].offset, audio[log[i]].len))
  }

  /** Sample by sample, the file ranges the audio index names. */
  function AudioRanges(bytes: seq<byte>, audio: seq<RtpMeta>, log: seq<int>): seq<seq<byte>>
    requires Within(log, |audio|)
    requires forall i :: 0 <= i < |audio| ==>
      0 <= audio[i].offset && 0 <= audio[i].len && audio[i].offset + audio[i].len <= |bytes|
  {
    seq(|log|, i requires 0 <= i < |log| =>
      bytes[audio[log[i]].offset..audio[log[i]].offset + audio[log[i]].len])
  }

  lemma GoodAudioInFile(s: Stream, audio: seq<RtpMeta>)
    requires GoodAudio(s, audio)
    ensures forall i :: 0 <= i < |audio| ==>
      0 <= audio[i].offset && 0 <= audio[i].len && audio[i].offset + audio[i].len <= |s.bytes|
  {
    forall i | 0 <= i < |audio|
      ensures 0 <= audio[i].offset && 0 <= audio[i].len && audio[i].offset + audio[i].len <= |s.bytes|
    {
      assert Holds(s, audio[i].offset, audio[i].len);
    }
  }

  /** When the client keeps no samples, an audio run is the file ranges. */
  lemma AudioRunIsRanges(s: Stream, audio: seq<RtpMeta>, log: seq<int>)
    requires GoodAudio(s, audio) && Within(log, |audio|)
    ensures forall i :: 0 <= i < |audio| ==>
      0 <= audio[i].offset && 0 <= audio[i].len && audio[i].offset + audio[i].len <= |s.bytes|
    ensures Flatten(MediaBufs(Flatten(AudioJobs(map[], s, audio, log)), Audio))
      == Flatten(AudioRanges(s.bytes, audio, log))
  {
    GoodAudioInFile(s, audio);
    var jobs, pieces := AudioJobs(map[], s, audio, log), AudioRanges(s.bytes, audio, log);
    forall i | 0 <= i < |jobs| ensures Flatten(MediaBufs(jobs[i], Audio)) == pieces[i] {
      var meta := audio[log[i]];
      assert Holds(s, meta.offset, meta.len);
      AudioReadCases(map[], s, log[i], meta.offset, meta.len);
      OneBuf(jobs[i][0]);
    }
    JobsArePieces(jobs, pieces, Audio);
  }

  /** An index the audio loader built, below 2^31, names back-to-back ranges: together one range of the file. */
  lemma {:induction false} AudioRangesAreContiguous(s: Stream, sizes: seq<int>, first: nat, last: nat)
    requires s.open && !s.failed && forall k :: 0 <= k < |sizes| ==> sizes[k] >= 0
    requires Sum(sizes) < 0x8000_0000 && Sum(sizes) <= |s.bytes| && first <= last <= |sizes|
    ensures GoodAudio(s, BuildAudio(sizes)) && |BuildAudio(sizes)| == |sizes|
    ensures forall i :: 0 <= i < |sizes| ==>
      && 0 <= BuildAudio(sizes)[i].offset && 0 <= BuildAudio(sizes)[i].len
      && BuildAudio(sizes)[i].offset + BuildAudio(sizes)[i].len <= |s.bytes|
    ensures 0 <= Sum(sizes[..first]) <= Sum(sizes[..last]) <= |s.bytes|
    ensures Flatten(AudioRanges(s.bytes, BuildAudio(sizes), Range(first, last)))
      == s.bytes[Sum(sizes[..first])..Sum(sizes[..last])]
    decreases last
  {
    var audio := BuildAudio(sizes);
    AudioIndexIsGood(s, sizes);
    GoodAudioInFile(s, audio);
    PrefixSums(sizes, first, last);
    if first < last {
      var n := last - 1;
      AudioRangesAreContiguous(s, sizes, first, n);
      AudioEntry(sizes, n);
      PrefixSums(sizes, n, last);
      OneMoreRange(s.bytes, audio, first, n);
      SliceJoin(s.bytes, Sum(sizes[..first]), Sum(sizes[..n]), Sum(sizes[..last]));
    } else {
      assert AudioRanges(s.bytes, audio, Range(first, first)) == [];
    }
  }

  lemma OneMoreRange(bytes: seq<byte>, audio: seq<RtpMeta>, first: nat, n: nat)
    requires first <= n < |audio|
    requires forall i :: 0 <= i < |audio| ==>
      0 <= audio[i].offset && 0 <= audio[i].len && audio[i].offset + audio[i].len <= |bytes|
    ensures Flatten(AudioRanges(bytes, audio, Range(first, n + 1)))
      == Flatten(AudioRanges(bytes, audio, Range(first, n))) + bytes[audio[n].offset..audio[n].offset + audio[n].len]
  {
    var range := bytes[audio[n].offset..audio[n].offset + audio[n].len];
    assert AudioRanges(bytes, audio, Range(first, n + 1)) == AudioRanges(bytes, audio, Range(first, n)) + [range];
    FlattenSnoc(AudioRanges(bytes, audio, Range(first, n)), range);
  }

  lemma PrefixSums(sizes: seq<int>, i: nat, j: nat)
    requires i <= j <= |sizes| && forall k :: 0 <= k < |sizes| ==> sizes[k] >= 0
    ensures 0 <= Sum(sizes[..i]) <= Sum(sizes[..j]) <= Sum(sizes)
  {
    assert sizes[..j] == sizes[..i] + sizes[i..j] && sizes == sizes[..j] + sizes[j..];
    SumAppend(sizes[..i], sizes[i..j]);
    SumAppend(sizes[..j], sizes[j..]);
    SumNonNegative(sizes[..i]);
    SumNonNegative(sizes[i..j]);
    SumNonNegative(sizes[j..]);
  }

  lemma AudioEntry(sizes: seq<int>, n: nat)
    requires n < |sizes| && Sum(sizes) < 0x8000_0000 && forall k :: 0 <= k < |sizes| ==> sizes[k] >= 0
    ensures |BuildAudio(sizes)| == |sizes|
    ensures BuildAudio(sizes)[n] == RtpMeta(sizes[n], Sum(sizes[..n]))
    ensures Sum(sizes[..n + 1]) == Sum(sizes[..n]) + sizes[n]
  {
    AudioOffsets(sizes, n);
    PrefixSums(sizes, n, n + 1);
    NextOfPrefix(sizes, n);
    SumAppend(sizes[..n], [sizes[n]]);
    assert [sizes[n]][1..] == [] && Sum([sizes[n]]) == sizes[n];
  }

  lemma AudioIndexIsGood(s: Stream, sizes: seq<int>)
    requires s.open && !s.failed && forall k :: 0 <= k < |sizes| ==> sizes[k] >= 0
    requires Sum(sizes) < 0x8000_0000 && Sum(sizes) <= |s.bytes|
    ensures GoodAudio(s, BuildAudio(sizes)) && |BuildAudio(sizes)| == |sizes|
  {
    AudioLength(sizes);
    forall i | 0 <= i < |sizes| ensures Holds(s, BuildAudio(sizes)[i].offset, BuildAudio(sizes)[i].len) {
      AudioEntry(sizes, i);
      PrefixSums(sizes, i, i + 1);
      PrefixSums(sizes, i + 1, |sizes|);
    }
  }

  // --------------------------------------------------------------- invariants

  /** Both readers' positions, and what they have begun, at every point of a run. */
  ghost predicate PlayInv(t: Title, p: Player, streams: map<int, seq<Stream>>, audioStream: Stream)
  {
    && Playable(t, streams, audioStream) && p.streams == streams && p.audioStream == audioStream
    && p.cur <= t.last && Within(p.log, t.last) && p.audioCur <= t.audioLast && Within(p.audioLog, t.audioLast)
    && Reachable(p.pipe)
    && (forall i :: 0 <= i < |p.pipe.jobs| ==> OneMedium(p.pipe.jobs[i]))
    && JobsOfMedium(p.pipe.jobs, Video)
      == VideoJobs(streams, t.cfg, MapOf(t), t.fronts, t.rears, t.camId, p.log)
    && JobsOfMedium(p.pipe.jobs, Audio) == AudioJobs(MapOf(t), audioStream, t.audio, p.audioLog)
  }

  lemma VideoTickKeeps(t: Title, p: Player, streams: map<int, seq<Stream>>, audioStream: Stream)
    requires PlayInv(t, p, streams, audioStream) && CanPlay(t, p, VideoTick)
    ensures PlayInv(t, Play(t, p, VideoTick), streams, audioStream)
  {
    var n, job := p.cur, VideoJobAt(t, p);
    RunJobOnWire(streams, t.cfg, t.lists, t.fronts, t.rears, t.camId, t.frontTotal, t.rearTotal, n);
    VideoTickReachable(t, p, streams, audioStream);
    JobsOfMediumSnoc(p.pipe.jobs, job, Video);
    JobsOfMediumSnoc(p.pipe.jobs, job, Audio);
    OneMoreVideoJob(streams, t.cfg, MapOf(t), t.fronts, t.rears, t.camId, p.log, n);
  }

  lemma VideoTickReachable(t: Title, p: Player, streams: map<int, seq<Stream>>, audioStream: Stream)
    requires Playable(t, streams, audioStream) && p.streams == streams && p.cur < t.last
    requires Reachable(p.pipe) && Enabled(p.pipe, BeginJob([]))
    ensures Reachable(Apply(p.pipe, BeginJob(VideoJobAt(t, p))))
  {
    var n := p.cur;
    GoodViewCanRead(streams[t.camId][0], t.fronts, t.frontTotal, t.cfg.gops[0], n);
    GoodViewCanRead(streams[t.camId][1], t.rears, t.rearTotal, t.cfg.gops[0], n);
    VideoJobWellFormed(streams, t.cfg, MapOf(t), t.fronts[n], t.rears[n], t.camId, n);
    ReachableStep(p.pipe, BeginJob(VideoJobAt(t, p)));
  }

  lemma AudioTickKeeps(t: Title, p: Player, streams: map<int, seq<Stream>>, audioStream: Stream)
    requires PlayInv(t, p, streams, audioStream) && CanPlay(t, p, AudioTick)
    ensures PlayInv(t, Play(t, p, AudioTick), streams, audioStream)
  {
    var n, job := p.audioCur, AudioJobAt(t, p);
    assert Holds(audioStream, t.audio[n].offset, t.audio[n].len);
    AudioReadCases(MapOf(t), audioStream, n, t.audio[n].offset, t.audio[n].len);
    AudioStreamAfterRead(MapOf(t), audioStream, t.audio[n].offset, t.audio[n].len);
    AudioJobWellFormed(MapOf(t), audioStream, n, t.audio[n].offset, t.audio[n].len);
    ReachableStep(p.pipe, BeginJob(job));
    JobsOfMediumSnoc(p.pipe.jobs, job, Video);
    JobsOfMediumSnoc(p.pipe.jobs, job, Audio);
    OneMoreAudioJob(MapOf(t), audioStream, t.audio, p.audioLog, n);
  }

  lemma OneMoreAudioJob(m: HybridMap, s: Stream, audio: seq<RtpMeta>, log: seq<int>, n: nat)
    requires Within(log, |audio|) && n < |audio|
    ensures AudioJobs(m, s, audio, log + [n])
      == AudioJobs(m, s, audio, log) + [AudioJob(m, s, n, audio[n].offset, audio[n].len)]
  {
  }

  lemma StepKeeps(t: Title, p: Player, streams: map<int, seq<Stream>>, audioStream: Stream, e: Event)
    requires PlayInv(t, p, streams, audioStream) && CanPlay(t, p, Step(e))
    ensures PlayInv(t, Play(t, p, Step(e)), streams, audioStream)
  {
    ReachableStep(p.pipe, e);
  }

  lemma {:induction false} PlayAllKeeps(t: Title, p: Player, streams: map<int, seq<Stream>>, audioStream: Stream,
                                        events: seq<PlayEvent>)
    requires PlayInv(t, p, streams, audioStream) && PlayAll(t, p, events).Some?
    ensures PlayInv(t, PlayAll(t, p, events).value, streams, audioStream)
    decreases |events|
  {
    if events != [] {
      var e := events[0];
      match e {
        case VideoTick => VideoTickKeeps(t, p, streams, audioStream);
        case AudioTick => AudioTickKeeps(t, p, streams, audioStream);
        case ResumeAfter(v, a) => StepKeeps(t, p, streams, audioStream, SetPaused(false));
        case Step(e') => StepKeeps(t, p, streams, audioStream, e');
      }
      PlayAllKeeps(t, Play(t, p, e), streams, audioStream, events[1..]);
    }
  }

  lemma PlayedKeeps(t: Title, streams: map<int, seq<Stream>>, audioStream: Stream, p: Player)
    requires Playable(t, streams, audioStream) && Played(t, streams, audioStream, p)
    ensures PlayInv(t, p, streams, audioStream)
  {
    var events :| PlayAll(t, Begin(t, streams, audioStream), events) == Some(p);
    assert Exec(Init, []) == Some(Init) && WellFormedRun([]);
    PlayAllKeeps(t, Begin(t, streams, audioStream), streams, audioStream, events);
  }

  // ------------------------------------------------------------- main results

  /**
   * End to end: play from any sample, with any settings and lists, audio in
   * between, pauses, resumes that move the cursors, reclaiming and any
   * interleaving.  When the pipeline has drained, the video bytes written are,
   * for each sample in the order in which they were read, the front then the
   * rear view: metadata, file region or (rear only) nothing.
   */
  lemma PlayedRunIsOnWire(t: Title, streams: map<int, seq<Stream>>, audioStream: Stream, p: Player)
    requires Playable(t, streams, audioStream) && Played(t, streams, audioStream, p) && Drained(p.pipe)
    ensures var front, rear := streams[t.camId][0].bytes, streams[t.camId][1].bytes;
      && AllInFile(front, t.fronts) && AllInFile(rear, t.rears) && Within(p.log, t.last)
      && AllInBounds(p.pipe.sentLog)
      && MediaPayloads(p.pipe.sentLog, Video)
        == Flatten(RunOnWire(t.cfg, t.lists, t.camId, t.fronts, t.rears, front, rear, p.log))
  {
    PlayedKeeps(t, streams, audioStream, p);
    DrainedWroteEverything(p.pipe, Video);
    JobsOfMediumBufs(p.pipe.jobs, Video);
    RunBufs(streams, t.cfg, t.lists, t.fronts, t.rears, t.camId, p.log, t.frontTotal, t.rearTotal);
  }

  /**
   * Full streaming: with P frames on and no lists, the video bytes are per sample
   * read the front then the rear region of the files; and when no resume moved the
   * cursor, the front regions are one contiguous file range.
   */
  lemma FullStreamingWritesTheFiles(t: Title, streams: map<int, seq<Stream>>, audioStream: Stream, p: Player)
    requires Playable(t, streams, audioStream) && Played(t, streams, audioStream, p) && Drained(p.pipe)
    requires t.cfg.pFrameTx && t.lists == []
    ensures var front, rear := streams[t.camId][0].bytes, streams[t.camId][1].bytes;
      && AllInFile(front, t.fronts) && AllInFile(rear, t.rears) && Within(p.log, t.last) && p.cur <= t.last
      && AllInBounds(p.pipe.sentLog)
      && MediaPayloads(p.pipe.sentLog, Video) == Flatten(FrontRear(front, rear, t.fronts, t.rears, p.log))
      && (p.log == Range(t.first, p.cur) && t.first < p.cur ==>
            var end := if p.cur < |t.fronts| then t.fronts[p.cur].offset else t.frontTotal;
            && t.fronts[t.first].offset <= end <= |front|
            && Flatten(Regions(front, t.fronts, t.first, p.cur)) == front[t.fronts[t.first].offset..end])
  {
    var front, rear := streams[t.camId][0].bytes, streams[t.camId][1].bytes;
    PlayedRunIsOnWire(t, streams, audioStream, p);
    PlayedKeeps(t, streams, audioStream, p);
    FullRunIsRegions(t.cfg, t.camId, t.fronts, t.rears, front, rear, p.log);
    if t.first < p.cur {
      RegionsAreContiguous(streams[t.camId][0], t.fronts, t.frontTotal, t.cfg.gops[0], t.first, p.cur);
    }
  }

  /** And the audio bytes are the file ranges of the audio samples read, whatever the video sent. */
  lemma FullStreamingWritesTheAudio(t: Title, streams: map<int, seq<Stream>>, audioStream: Stream, p: Player)
    requires Playable(t, streams, audioStream) && Played(t, streams, audioStream, p) && Drained(p.pipe)
    requires MapOf(t) == map[]
    ensures Within(p.audioLog, |t.audio|) && AllInBounds(p.pipe.sentLog)
    ensures forall i :: 0 <= i < |t.audio| ==>
      0 <= t.audio[i].offset && 0 <= t.audio[i].len && t.audio[i].offset + t.audio[i].len <= |audioStream.bytes|
    ensures MediaPayloads(p.pipe.sentLog, Audio) == Flatten(AudioRanges(audioStream.bytes, t.audio, p.audioLog))
  {
    PlayedKeeps(t, streams, audioStream, p);
    DrainedWroteEverything(p.pipe, Audio);
    JobsOfMediumBufs(p.pipe.jobs, Audio);
    AudioRunIsRanges(audioStream, t.audio, p.audioLog);
  }

  /** With the index its loader built, and no resume that moved the cursor, that is one range of the audio file. */
  lemma FullStreamingWritesOneAudioRange(t: Title, streams: map<int, seq<Stream>>, audioStream: Stream, p: Player,
                                         sizes: seq<int>)
    requires Playable(t, streams, audioStream) && Played(t, streams, audioStream, p) && Drained(p.pipe)
    requires MapOf(t) == map[] && t.audio == BuildAudio(sizes)
    requires t.audioFirst <= p.audioCur && p.audioLog == Range(t.audioFirst, p.audioCur)
    requires forall k :: 0 <= k < |sizes| ==> sizes[k] >= 0
    requires Sum(sizes) < 0x8000_0000 && Sum(sizes) <= |audioStream.bytes|
    ensures p.audioCur <= |sizes| && AllInBounds(p.pipe.sentLog)
    ensures 0 <= Sum(sizes[..t.audioFirst]) <= Sum(sizes[..p.audioCur]) <= |audioStream.bytes|
    ensures MediaPayloads(p.pipe.sentLog, Audio)
      == audioStream.bytes[Sum(sizes[..t.audioFirst])..Sum(sizes[..p.audioCur])]
  {
    FullStreamingWritesTheAudio(t, streams, audioStream, p);
    PlayedKeeps(t, streams, audioStream, p);
    AudioLength(sizes);
    AudioRangesAreContiguous(audioStream, sizes, t.audioFirst, p.audioCur);
  }

  /** Without a resume both readers read from their first sample on, one after the other. */
  lemma {:induction false} StraightPlay(t: Title, p: Player, events: seq<PlayEvent>)
    requires ValidTitle(t) && PlayAll(t, p, events).Some? && forall e :: e in events ==> !e.ResumeAfter?
    ensures var q := PlayAll(t, p, events).value;
      && p.cur <= q.cur && q.log == p.log + Range(p.cur, q.cur)
      && p.audioCur <= q.audioCur && q.audioLog == p.audioLog + Range(p.audioCur, q.audioCur)
    decreases |events|
  {
    if events != [] {
      var e := events[0];
      var q := Play(t, p, e);
      StraightPlay(t, q, events[1..]);
      var z := PlayAll(t, q, events[1..]).value;
      if e.VideoTick? { RangeCons(p.cur, z.cur); Associative(p.log, [p.cur], Range(q.cur, z.cur)); }
      if e.AudioTick? {
        RangeCons(p.audioCur, z.audioCur);
        Associative(p.audioLog, [p.audioCur], Range(q.audioCur, z.audioCur));
      }
    } else {
      assert Range(p.cur, p.cur) == [] && Range(p.audioCur, p.audioCur) == [];
    }
  }

  /**
   * Hybrid: when the client keeps samples, each audio sample goes as one packet
   * that announces it by its number.
   */
  lemma HybridAudioIsAnnounced(t: Title, streams: map<int, seq<Stream>>, audioStream: Stream, p: Player, i: nat)
    requires Playable(t, streams, audioStream) && Played(t, streams, audioStream, p)
    requires MapOf(t) != map[] && i < |p.audioLog|
    ensures var jobs := JobsOfMedium(p.pipe.jobs, Audio);
      && |jobs| == |p.audioLog| && |jobs[i]| == 1
      && Announces(jobs[i][0], 1, Decoded(-1, -1, "I", HybridSampleMeta(p.audioLog[i], -1, -1, -1)))
  {
    PlayedAudioJobs(t, streams, audioStream, p);
    AudioJobAnnounces(MapOf(t), audioStream, t.audio, p.audioLog, i);
  }

  lemma PlayedAudioJobs(t: Title, streams: map<int, seq<Stream>>, audioStream: Stream, p: Player)
    requires Playable(t, streams, audioStream) && Played(t, streams, audioStream, p)
    ensures Within(p.audioLog, |t.audio|)
    ensures JobsOfMedium(p.pipe.jobs, Audio) == AudioJobs(MapOf(t), audioStream, t.audio, p.audioLog)
  {
    PlayedKeeps(t, streams, audioStream, p);
  }

  lemma AudioJobAnnounces(m: HybridMap, s: Stream, audio: seq<RtpMeta>, log: seq<int>, i: nat)
    requires m != map[] && Within(log, |audio|) && i < |log|
    ensures var jobs := AudioJobs(m, s, audio, log);
      && |jobs| == |log| && |jobs[i]| == 1
      && Announces(jobs[i][0], 1, Decoded(-1, -1, "I", HybridSampleMeta(log[i], -1, -1, -1)))
  {
    var n := log[i];
    AudioReadCases(m, s, n, audio[n].offset, audio[n].len);
    AudioJobIs(m, s, audio, log, i, AudioJob(m, s, n, audio[n].offset, audio[n].len));
  }

  lemma AudioJobIs(m: HybridMap, s: Stream, audio: seq<RtpMeta>, log: seq<int>, i: nat, job: seq<Sample>)
    requires Within(log, |audio|) && i < |log|
    requires job == AudioJob(m, s, log[i], audio[log[i]].offset, audio[log[i]].len)
    ensures |AudioJobs(m, s, audio, log)| == |log| && AudioJobs(m, s, audio, log)[i] == job
  {
  }
}
