/** From the index and the hybrid map to the bytes on the wire: end-to-end results. */
module Streaming {
  import opened Common
  import opened Pipeline
  import opened Delivery
  import opened SampleIndex
  import opened HybridMeta
  import opened Interleaved
  import opened RtpHandling

  // --------------------------------------------- the slicer against the index

  lemma {:induction false} CutAt(sid: nat, x: Sample, lens: seq<nat>, from: nat, i: nat)
    requires i < |lens|
    ensures |Cut(sid, x, lens, from)| == |lens| && Sum(lens[..i]) >= 0
    ensures Cut(sid, x, lens, from)[i] == Packet(sid, x, from + Sum(lens[..i]), lens[i])
  {
    CutLength(sid, x, lens[1..], from + lens[0]);
    SumNonNegative(lens[..i]);
    if i > 0 {
      CutAt(sid, x, lens[1..], from + lens[0], i - 1);
      assert lens[..i][1..] == lens[1..][..i - 1];
    }
  }

  lemma {:induction false} CutLength(sid: nat, x: Sample, lens: seq<nat>, from: nat)
    ensures |Cut(sid, x, lens, from)| == |lens|
  {
    if lens != [] { CutLength(sid, x, lens[1..], from + lens[0]); }
  }

  lemma PrefixSum(lens: seq<nat>, i: nat)
    requires i < |lens|
    ensures 0 <= Sum(lens[..i]) && Sum(lens[..i]) + lens[i] <= Sum(lens)
  {
    assert lens == lens[..i] + ([lens[i]] + lens[i + 1..]);
    SumAppend(lens[..i], [lens[i]] + lens[i + 1..]);
    assert ([lens[i]] + lens[i + 1..])[1..] == lens[i + 1..];
    SumNonNegative(lens[..i]);
    SumNonNegative(lens[i + 1..]);
  }

  lemma LensAgree(info: VideoInfo)
    requires ValidInfo(info)
    ensures PacketLens(info.packets) == Lens(info.packets) && info.size >= 0
  {
    LensNonNegative(info.packets);
  }

  /** The sample readVideoSample makes of an index entry and the bytes it read. */
  function FileSample(info: VideoInfo, buf: seq<byte>): Sample
    requires forall j :: 0 <= j < |info.packets| ==> info.packets[j].len >= 0
  {
    Sample(Video, buf, PacketLens(info.packets))
  }

  predicate InFile(bytes: seq<byte>, info: VideoInfo)
  {
    0 <= info.offset && 0 <= info.size && info.offset + info.size <= |bytes|
  }

  function Region(bytes: seq<byte>, info: VideoInfo): seq<byte>
    requires InFile(bytes, info)
  {
    bytes[info.offset..info.offset + info.size]
  }

  /**
   * The offset the slicer recomputes is the index's file offset less the
   * sample's, and the slice is the file range the index names.
   */
  lemma SlicerAgreesWithIndex(bytes: seq<byte>, info: VideoInfo, sid: nat, j: nat)
    requires ValidInfo(info) && InFile(bytes, info) && j < |info.packets|
    ensures var x := FileSample(info, Region(bytes, info));
      && x.WellFormed() && |Cut(sid, x, x.lens, 0)| == |info.packets|
      && var p, meta := Cut(sid, x, x.lens, 0)[j], info.packets[j];
      && p.InBounds()
      && p.offset == meta.offset - info.offset && p.length == meta.len
      && 0 <= meta.offset && meta.offset + meta.len <= |bytes|
      && p.Payload() == bytes[meta.offset..meta.offset + meta.len]
  {
    var x := FileSample(info, Region(bytes, info));
    var u, n := info.packets[j].offset - info.offset, info.packets[j].len;
    LensAgree(info);
    PrefixInInfo(info, j);
    SlicePacket(sid, x, j, u, n);
    SliceOfRegion(bytes, info, Packet(sid, x, u, n));
  }

  lemma SliceOfRegion(bytes: seq<byte>, info: VideoInfo, p: Packet)
    requires InFile(bytes, info) && p.sample.media == Video && p.sample.buf == Region(bytes, info) && p.InBounds()
    ensures p.Payload() == bytes[info.offset + p.offset..info.offset + p.offset + p.length]
  {
    SliceOfSlice(bytes, info.offset, info.offset + info.size, p.offset, p.offset + p.length);
  }

  lemma SlicePacket(sid: nat, x: Sample, j: nat, u: nat, n: nat)
    requires j < |x.lens| && Sum(x.lens[..j]) == u && x.lens[j] == n
    ensures |Cut(sid, x, x.lens, 0)| == |x.lens| && Cut(sid, x, x.lens, 0)[j] == Packet(sid, x, u, n)
  {
    CutAt(sid, x, x.lens, 0, j);
  }

  lemma PrefixInInfo(info: VideoInfo, j: nat)
    requires ValidInfo(info) && j < |info.packets|
    ensures var u := Sum(PacketLens(info.packets)[..j]);
      && info.packets[j].offset == info.offset + u
      && 0 <= u <= u + info.packets[j].len <= info.size
  {
    LensAgree(info);
    PrefixSum(PacketLens(info.packets), j);
  }

  /** readFirstRtpOfCurVideoSample: the first packet found from its own head alone. */
  function FirstRtp(s: Stream, offset: int, len: int): Option<seq<byte>>
  {
    match ReadAt(s, offset, len)
    case None => None
    case Some(buf) =>
      if |buf| < HEAD_LENGTH then None
      else
        var n := HEAD_LENGTH + U16(buf[2], buf[3]);
        Some(if n <= |buf| then buf[..n] else buf + seq(n - |buf|, _ => 0))
  }

  /** If the index's first packet is a valid unit, the head finds exactly slice 0. */
  lemma FirstRtpIsSliceZero(s: Stream, info: VideoInfo, sid: nat)
    requires ValidInfo(info) && InFile(s.bytes, info) && !s.failed && info.packets != []
    requires 0 <= info.packets[0].offset && info.packets[0].offset + info.packets[0].len <= |s.bytes|
    requires ValidUnit(s.bytes[info.packets[0].offset..info.packets[0].offset + info.packets[0].len])
    ensures var x := FileSample(info, Region(s.bytes, info));
      && |Cut(sid, x, x.lens, 0)| > 0 && Cut(sid, x, x.lens, 0)[0].InBounds()
      && FirstRtp(s, info.offset, info.size) == Some(Cut(sid, x, x.lens, 0)[0].Payload())
  {
    SlicerAgreesWithIndex(s.bytes, info, sid, 0);
    var x := FileSample(info, Region(s.bytes, info));
    CutAt(sid, x, x.lens, 0, 0);
  }

  // ----------------------------------------------------------------- de-framing

  /** Every slice of the sample is one interleaved unit. */
  ghost predicate UnitSample(x: Sample)
  {
    x.WellFormed() && forall p :: p in Cut(0, x, x.lens, 0) ==> p.InBounds() && ValidUnit(p.Payload())
  }

  lemma FileSampleHasUnits(bytes: seq<byte>, info: VideoInfo)
    requires ValidInfo(info) && InFile(bytes, info)
    requires forall j :: 0 <= j < |info.packets| ==>
      && 0 <= info.packets[j].offset <= info.packets[j].offset + info.packets[j].len <= |bytes|
      && ValidUnit(bytes[info.packets[j].offset..info.packets[j].offset + info.packets[j].len])
    ensures UnitSample(FileSample(info, Region(bytes, info)))
  {
    var x := FileSample(info, Region(bytes, info));
    LensAgree(info);
    CutLength(0, x, x.lens, 0);
    forall p | p in Cut(0, x, x.lens, 0) ensures p.InBounds() && ValidUnit(p.Payload()) {
      var j :| 0 <= j < |x.lens| && Cut(0, x, x.lens, 0)[j] == p;
      SlicerAgreesWithIndex(bytes, info, 0, j);
    }
  }

  lemma MetaSampleHasUnit(meta: HybridSampleMeta, camId: int, vid: int, frameType: string)
    requires MetaInRange(meta) && Int32(camId) && Int32(vid) && |frameType| == 1
    ensures UnitSample(VideoMetaSample(meta, camId, vid, frameType))
  {
    var x := VideoMetaSample(meta, camId, vid, frameType);
    MetaBinaryIsValidUnit(meta, Channel(vid), camId, vid, frameType);
    CutAt(0, x, x.lens, 0, 0);
    assert x.buf[..|x.buf|] == x.buf;
  }

  function PayloadList(ps: seq<Packet>): seq<seq<byte>>
    requires AllInBounds(ps)
  {
    if ps == [] then [] else [ps[0].Payload()] + PayloadList(ps[1..])
  }

  lemma {:induction false} PayloadListFacts(ps: seq<Packet>)
    requires AllInBounds(ps)
    ensures Flatten(PayloadList(ps)) == Payloads(ps) && |PayloadList(ps)| == |ps|
    ensures forall i :: 0 <= i < |ps| ==> PayloadList(ps)[i] == ps[i].Payload()
  {
    if ps != [] {
      PayloadListFacts(ps[1..]);
      assert PayloadList(ps)[1..] == PayloadList(ps[1..]);
    }
  }

  lemma {:induction false} PlanHasUnits(xs: seq<Sample>)
    requires forall x :: x in xs ==> UnitSample(x)
    ensures forall p :: p in Plan(xs) ==> p.InBounds() && ValidUnit(p.Payload())
  {
    if xs != [] {
      var n := |xs| - 1;
      var x := xs[n];
      PlanHasUnits(xs[..n]);
      CutHasUnits(n, x);
    }
  }

  lemma CutHasUnits(sid: nat, x: Sample)
    requires UnitSample(x)
    ensures forall p :: p in Cut(sid, x, x.lens, 0) ==> p.InBounds() && ValidUnit(p.Payload())
  {
    CutLength(sid, x, x.lens, 0);
    forall p | p in Cut(sid, x, x.lens, 0) ensures p.InBounds() && ValidUnit(p.Payload()) {
      var i :| 0 <= i < |x.lens| && Cut(sid, x, x.lens, 0)[i] == p;
      CutUnitAt(sid, x, i);
    }
  }

  lemma CutUnitAt(sid: nat, x: Sample, i: nat)
    requires UnitSample(x) && i < |x.lens|
    ensures |Cut(sid, x, x.lens, 0)| == |x.lens|
    ensures var p := Cut(sid, x, x.lens, 0)[i]; p.InBounds() && ValidUnit(p.Payload())
  {
    CutAt(sid, x, x.lens, 0, i);
    CutAt(0, x, x.lens, 0, i);
    assert Cut(0, x, x.lens, 0)[i] in Cut(0, x, x.lens, 0);
  }

  /** In every reachable state a receiver de-frames the wire into exactly the packets sent. */
  lemma EmittedStreamDeframes(s: State)
    requires Reachable(s)
    requires forall x :: x in s.samples ==> UnitSample(x)
    ensures AllInBounds(s.sentLog) && Deframe(s.wire) == Some(PayloadList(s.sentLog))
  {
    SentUnits(s);
    PayloadListFacts(s.sentLog);
    DeframeRecoversUnits(PayloadList(s.sentLog));
  }

  lemma SentUnits(s: State)
    requires Reachable(s) && forall x :: x in s.samples ==> UnitSample(x)
    ensures AllInBounds(s.sentLog) && s.wire == Payloads(s.sentLog)
    ensures forall i :: 0 <= i < |PayloadList(s.sentLog)| ==> ValidUnit(PayloadList(s.sentLog)[i])
  {
    ReachableInv(s);
    PlanHasUnits(s.samples);
    PayloadListFacts(s.sentLog);
    forall i | 0 <= i < |s.sentLog| ensures ValidUnit(PayloadList(s.sentLog)[i]) {
      assert s.sentLog[i] == (s.sentLog + Unsent(s))[i];
      assert s.sentLog[i] in Plan(s.samples);
    }
  }

  // ---------------------------------------------------- what each view produces

  /** A stream on which an index entry can be read. */
  predicate CanRead(s: Stream, info: VideoInfo)
  {
    s.open && !s.failed && InFile(s.bytes, info) && info.size > 0
  }

  /** The sample one view makes: metadata when listed, else its slices. */
  ghost function SentView(gop: int, lists: seq<NotTx>, camId: int, vid: int, n: int, info: VideoInfo,
                          bytes: seq<byte>): Sample
    requires gop > 0 && InFile(bytes, info) && forall j :: 0 <= j < |info.packets| ==> info.packets[j].len >= 0
  {
    if Listed(lists, camId, vid, n) then VideoMetaSample(LocalMeta(n), camId, vid, FrameType(n, gop))
    else FileSample(info, Region(bytes, info))
  }

  /** The rear view is left out: not listed, and a P frame not to be sent now. */
  ghost predicate RearLeftOut(cfg: Settings, lists: seq<NotTx>, camId: int, n: int)
    requires cfg.gops != [] && cfg.gops[0] > 0
  {
    !Listed(lists, camId, REAR_VIDEO_VID, n) && SkipsRear(cfg, n)
  }

  /**
   * Each view of a read sample is exactly one of: its metadata packet (when listed),
   * its file region, or - rear only - left out.  No stream starts to fail.
   */
  lemma EachViewOnce(streams: map<int, seq<Stream>>, cfg: Settings, lists: seq<NotTx>,
                     front: VideoInfo, rear: VideoInfo, camId: int, sampleNo: int)
    requires ValidSettings(cfg) && cfg.gops != [] && ValidInfo(front) && ValidInfo(rear)
    requires camId in streams && |streams[camId]| >= 2
    requires CanRead(streams[camId][0], front) && CanRead(streams[camId][1], rear)
    ensures var gop := cfg.gops[0];
      var m := RecordAll(gop, lists);
      var f := SentView(gop, lists, camId, FRONT_VIDEO_VID, sampleNo, front, streams[camId][0].bytes);
      var r := SentView(gop, lists, camId, REAR_VIDEO_VID, sampleNo, rear, streams[camId][1].bytes);
      && StreamsAfterJob(streams, cfg, m, front, rear, camId, sampleNo) == streams
      && VideoJob(streams, cfg, m, front, rear, camId, sampleNo)
        == if RearLeftOut(cfg, lists, camId, sampleNo) then [f] else [f, r]
  {
    var gop := cfg.gops[0];
    ReadView(streams, gop, lists, camId, FRONT_VIDEO_VID, sampleNo, front);
    ReadView(streams, gop, lists, camId, REAR_VIDEO_VID, sampleNo, rear);
  }

  lemma ReadView(streams: map<int, seq<Stream>>, gop: int, lists: seq<NotTx>, camId: int, vid: nat,
                 sampleNo: int, info: VideoInfo)
    requires gop > 0 && ValidInfo(info) && camId in streams && vid < |streams[camId]|
    requires CanRead(streams[camId][vid], info)
    ensures var m := RecordAll(gop, lists);
      && StreamsAfterView(streams, m, gop, camId, vid, sampleNo, info) == streams
      && (Lookup(m, camId, ViewKey(vid, FrameType(sampleNo, gop)), sampleNo).Some?
          <==> Listed(lists, camId, vid, sampleNo))
      && ViewSample(m, gop, camId, vid, sampleNo, info, streams[camId][vid])
        == Some(SentView(gop, lists, camId, vid, sampleNo, info, streams[camId][vid].bytes))
  {
    FoundIffListed(gop, lists);
    assert Found(RecordAll(gop, lists), gop, camId, vid, sampleNo) <==> Listed(lists, camId, vid, sampleNo);
    ReadKeepsStreams(streams, RecordAll(gop, lists), gop, camId, vid, sampleNo, info);
  }

  lemma ReadKeepsStreams(streams: map<int, seq<Stream>>, m: HybridMap, gop: int, camId: int, vid: nat,
                         sampleNo: int, info: VideoInfo)
    requires gop > 0 && camId in streams && vid < |streams[camId]| && CanRead(streams[camId][vid], info)
    ensures StreamsAfterView(streams, m, gop, camId, vid, sampleNo, info) == streams
    ensures ReadAt(streams[camId][vid], info.offset, info.size) == Some(Region(streams[camId][vid].bytes, info))
  {
    assert streams[camId][vid := streams[camId][vid]] == streams[camId];
  }

  // ------------------------------------------------------------ size of a job

  /** No metadata packet is longer. */
  const MAX_META_BYTES := 110

  function AtLeastMeta(size: int): nat
  {
    if size < MAX_META_BYTES then MAX_META_BYTES else size
  }

  lemma ViewBytes(gop: int, lists: seq<NotTx>, camId: int, vid: int, sampleNo: int, info: VideoInfo, s: Stream)
    requires gop > 0 && ValidInfo(info) && Int32(camId) && Int32(vid) && Int32(sampleNo)
    ensures var view := ViewSample(RecordAll(gop, lists), gop, camId, vid, sampleNo, info, s);
      view.Some? ==> |view.value.buf| <= AtLeastMeta(info.size)
  {
    var m, frameType := RecordAll(gop, lists), FrameType(sampleNo, gop);
    FoundIffListed(gop, lists);
    if Lookup(m, camId, ViewKey(vid, frameType), sampleNo).Some? {
      assert Listed(lists, camId, vid, sampleNo);
      assert Found(m, gop, camId, vid, sampleNo);
      MetaBinaryIsValidUnit(LocalMeta(sampleNo), Channel(vid), camId, vid, frameType);
    }
  }

  /** One job adds at most its two samples to the budget, whatever the lists and settings are. */
  lemma VideoJobBytes(streams: map<int, seq<Stream>>, cfg: Settings, gop: int, lists: seq<NotTx>,
                      front: VideoInfo, rear: VideoInfo, camId: int, sampleNo: int)
    requires ValidSettings(cfg) && gop > 0 && (cfg.gops != [] ==> cfg.gops[0] == gop)
    requires ValidInfo(front) && ValidInfo(rear) && Int32(camId) && Int32(sampleNo)
    ensures BufBytes(VideoJob(streams, cfg, RecordAll(gop, lists), front, rear, camId, sampleNo))
      <= AtLeastMeta(front.size) + AtLeastMeta(rear.size)
  {
    if Readable(streams, cfg, front, rear, camId) {
      ViewBytes(gop, lists, camId, FRONT_VIDEO_VID, sampleNo, front, streams[camId][0]);
      ViewBytes(gop, lists, camId, REAR_VIDEO_VID, sampleNo, rear, streams[camId][1]);
      OneOrTwoBufs(VideoJob(streams, cfg, RecordAll(gop, lists), front, rear, camId, sampleNo));
    }
  }

  /** One audio job adds its sample, or metadata, to the budget. */
  lemma AudioJobBytes(m: HybridMap, s: Stream, sampleNo: int, offset: int, len: int)
    requires Int32(sampleNo)
    ensures BufBytes(AudioJob(m, s, sampleNo, offset, len)) <= AtLeastMeta(len)
  {
    MetaBinaryIsValidUnit(HybridSampleMeta(sampleNo, -1, -1, -1), AUDIO_ID, -1, -1, KEY_FRAME_TYPE);
    OneOrTwoBufs(AudioJob(m, s, sampleNo, offset, len));
  }

  /** A call of one of the two reading methods. */
  datatype Read =
    | VideoRead(streams: map<int, seq<Stream>>, cfg: Settings, gop: int, lists: seq<NotTx>,
                front: VideoInfo, rear: VideoInfo, camId: int, sampleNo: int)
    | AudioRead(hybridMetaMap: HybridMap, stream: Stream, sampleNo: int, offset: int, len: int)

  ghost predicate GoodRead(r: Read)
  {
    && Int32(r.sampleNo)
    && (r.VideoRead? ==>
          && ValidSettings(r.cfg) && r.gop > 0 && (r.cfg.gops != [] ==> r.cfg.gops[0] == r.gop)
          && ValidInfo(r.front) && ValidInfo(r.rear) && Int32(r.camId))
  }

  /** The samples the call hands to the pipeline. */
  function JobOf(r: Read): seq<Sample>
    requires GoodRead(r)
  {
    match r
    case VideoRead(streams, cfg, gop, lists, front, rear, camId, sampleNo) =>
      VideoJob(streams, cfg, RecordAll(gop, lists), front, rear, camId, sampleNo)
    case AudioRead(m, stream, sampleNo, offset, len) => AudioJob(m, stream, sampleNo, offset, len)
  }

  /** The sizes the index gives for what it reads. */
  function ReadBytes(r: Read): nat
  {
    if r.VideoRead? then AtLeastMeta(r.front.size) + AtLeastMeta(r.rear.size) else AtLeastMeta(r.len)
  }

  /** The jobs begun are those of the reads, each of at most so many bytes. */
  ghost predicate JobsAreReads(jobs: seq<seq<Sample>>, calls: seq<Read>, largest: nat)
  {
    && |jobs| == |calls|
    && forall i :: 0 <= i < |calls| ==>
         GoodRead(calls[i]) && ReadBytes(calls[i]) <= largest && jobs[i] == JobOf(calls[i])
  }

  lemma ReadWithin(r: Read)
    requires GoodRead(r)
    ensures BufBytes(JobOf(r)) <= ReadBytes(r) && WellFormedEvent(BeginJob(JobOf(r)))
  {
    match r
    case VideoRead(streams, cfg, gop, lists, front, rear, camId, sampleNo) =>
      VideoJobBytes(streams, cfg, gop, lists, front, rear, camId, sampleNo);
      VideoJobWellFormed(streams, cfg, RecordAll(gop, lists), front, rear, camId, sampleNo);
    case AudioRead(m, stream, sampleNo, offset, len) =>
      AudioJobBytes(m, stream, sampleNo, offset, len);
      AudioJobWellFormed(m, stream, sampleNo, offset, len);
  }

  /**
   * In every reachable state, whatever was read by however many readers: the bytes
   * held are below the limit plus the largest front and rear sample, or audio sample.
   */
  lemma ReadersStayInBudget(s: State, calls: seq<Read>, largest: nat)
    requires Reachable(s) && JobsAreReads(s.jobs, calls, largest)
    ensures 0 <= s.allocatedBytes == Bytes(Pending(s)) < 5 * 1024 * 1024 + largest
  {
    forall job | job in s.jobs ensures BufBytes(job) <= largest {
      var i :| 0 <= i < |s.jobs| && s.jobs[i] == job;
      ReadWithin(calls[i]);
    }
    ByteBudget(s, largest);
  }

  lemma OneMoreRead(jobs: seq<seq<Sample>>, calls: seq<Read>, largest: nat, r: Read)
    requires JobsAreReads(jobs, calls, largest) && GoodRead(r) && ReadBytes(r) <= largest
    ensures JobsAreReads(jobs + [JobOf(r)], calls + [r], largest)
  {
  }

  lemma OneOrTwoBufs(job: seq<Sample>)
    ensures |job| == 1 ==> BufBytes(job) == |job[0].buf|
    ensures |job| == 2 ==> BufBytes(job) == |job[0].buf| + |job[1].buf|
  {
    if |job| == 1 || |job| == 2 { assert BufBytes(job) == |job[0].buf| + BufBytes(job[1..]); }
    if |job| == 2 { assert BufBytes(job[1..]) == |job[1].buf| + BufBytes(job[1..][1..]); }
  }

  // --------------------------------------------------------- P-frame skipping

  /** Reading sample n writes something for the rear view. */
  predicate RearSent(streams: map<int, seq<Stream>>, cfg: Settings, fronts: seq<VideoInfo>, rears: seq<VideoInfo>,
                     camId: int, n: nat)
    requires ValidSettings(cfg) && NonNegative(fronts) && NonNegative(rears) && n < |fronts| && n < |rears|
  {
    |VideoJob(streams, cfg, map[], fronts[n], rears[n], camId, n)| == 2
  }

  /** Both views of every sample can be read. */
  ghost predicate GoodViews(streams: map<int, seq<Stream>>, cfg: Settings, fronts: seq<VideoInfo>,
                            rears: seq<VideoInfo>, camId: int, frontTotal: nat, rearTotal: nat)
  {
    && ValidSettings(cfg) && cfg.gops != []
    && camId in streams && |streams[camId]| >= 2
    && GoodView(streams[camId][0], fronts, frontTotal, cfg.gops[0])
    && GoodView(streams[camId][1], rears, rearTotal, cfg.gops[0])
  }

  /** Without lists, the rear view is sent unless the P-frame rule skips it. */
  lemma RearSentIff(streams: map<int, seq<Stream>>, cfg: Settings, fronts: seq<VideoInfo>, rears: seq<VideoInfo>,
                    camId: int, frontTotal: nat, rearTotal: nat, n: nat)
    requires GoodViews(streams, cfg, fronts, rears, camId, frontTotal, rearTotal) && n < |fronts| && n < |rears|
    ensures RearSent(streams, cfg, fronts, rears, camId, n) <==> !SkipsRear(cfg, n)
    ensures VideoJob(streams, cfg, map[], fronts[n], rears[n], camId, n) != []
  {
    GoodViewCanRead(streams[camId][0], fronts, frontTotal, cfg.gops[0], n);
    GoodViewCanRead(streams[camId][1], rears, rearTotal, cfg.gops[0], n);
    EachViewOnce(streams, cfg, [], fronts[n], rears[n], camId, n);
  }

  /** No rear P frame goes out without the frame before it in its GOP. */
  ghost predicate GopPrefixesSent(streams: map<int, seq<Stream>>, cfg: Settings, fronts: seq<VideoInfo>,
                                  rears: seq<VideoInfo>, camId: int)
    requires ValidSettings(cfg) && cfg.gops != [] && NonNegative(fronts) && NonNegative(rears)
    requires |fronts| == |rears|
  {
    forall n: nat :: 0 < n < |fronts| && n % cfg.gops[0] != 0 && RearSent(streams, cfg, fronts, rears, camId, n)
      ==> RearSent(streams, cfg, fronts, rears, camId, n - 1)
  }

  lemma NextInGop(n: nat, gop: int)
    requires gop > 0 && n > 0
    ensures n % gop != 0 ==> (n - 1) % gop == n % gop - 1
  {
    var q, r := n / gop, n % gop;
    assert n == q * gop + r;
    if r != 0 { DivModUnique(n - 1, q, r - 1, gop); }
  }

  lemma RestOfCount(cnt: nat, gop: int)
    requires gop > 0 && cnt >= gop
    ensures (cnt - gop) % gop == cnt % gop
  {
    var q, r := cnt / gop, cnt % gop;
    assert cnt == q * gop + r && (q - 1) * gop == q * gop - gop;
    DivModUnique(cnt - gop, q - 1, r, gop);
  }

  /** The rule alone never skips the frame before one it lets through. */
  ghost predicate SkipPrefixes(cfg: Settings, cnt: nat)
    requires cfg.gops != [] && cfg.gops[0] > 0
  {
    forall n: nat :: 0 < n < cnt && n % cfg.gops[0] != 0 && SkipsRear(cfg, n - 1) ==> SkipsRear(cfg, n)
  }

  lemma SkipPrefixesIff(cfg: Settings, cnt: nat)
    requires cfg.gops != [] && cfg.gops[0] > 0
    requires !cfg.inCamSwitching && !cfg.pFrameTx && cfg.refVideoSampleCnt == cnt
    ensures SkipPrefixes(cfg, cnt) <==> cnt < cfg.gops[0] || cnt % cfg.gops[0] <= 2
  {
    if cnt >= cfg.gops[0] && cnt % cfg.gops[0] > 2 {
      SkipGap(cfg, cnt);
    } else {
      forall n: nat | 0 < n < cnt && n % cfg.gops[0] != 0 && SkipsRear(cfg, n - 1) ensures SkipsRear(cfg, n) {
        SkipGoesOn(cfg, cnt, n);
      }
    }
  }

  /** The sample that is one GOP before the end is sent, and the one before it is not. */
  lemma SkipGap(cfg: Settings, cnt: nat)
    requires cfg.gops != [] && 0 < cfg.gops[0] <= cnt && cnt % cfg.gops[0] > 2
    requires !cfg.inCamSwitching && !cfg.pFrameTx && cfg.refVideoSampleCnt == cnt
    ensures !SkipPrefixes(cfg, cnt)
  {
    var t: nat := cnt - cfg.gops[0];
    RestOfCount(cnt, cfg.gops[0]);
    NextInGop(t, cfg.gops[0]);
    assert t % cfg.gops[0] != 0 && SkipsRear(cfg, t - 1) && !SkipsRear(cfg, t);
  }

  lemma SkipGoesOn(cfg: Settings, cnt: nat, n: nat)
    requires cfg.gops != [] && cfg.gops[0] > 0 && cfg.refVideoSampleCnt == cnt
    requires cnt < cfg.gops[0] || cnt % cfg.gops[0] <= 2
    requires 0 < n < cnt && n % cfg.gops[0] != 0 && SkipsRear(cfg, n - 1)
    ensures SkipsRear(cfg, n)
  {
    NextInGop(n, cfg.gops[0]);
    RestOfCount(cnt, cfg.gops[0]);
  }

  /**
   * Reading all samples with P frames off and no camera switch, the rear frames
   * written form a prefix of every GOP exactly when the sample count leaves at
   * most 2 modulo the GOP, or there is less than one GOP.
   */
  lemma RearPrefixIff(streams: map<int, seq<Stream>>, cfg: Settings, fronts: seq<VideoInfo>, rears: seq<VideoInfo>,
                      camId: int, frontTotal: nat, rearTotal: nat)
    requires GoodViews(streams, cfg, fronts, rears, camId, frontTotal, rearTotal) && |fronts| == |rears|
    requires !cfg.inCamSwitching && !cfg.pFrameTx && cfg.refVideoSampleCnt == |fronts|
    ensures GopPrefixesSent(streams, cfg, fronts, rears, camId)
      <==> |fronts| < cfg.gops[0] || |fronts| % cfg.gops[0] <= 2
  {
    SkipPrefixesIff(cfg, |fronts|);
    forall n: nat | n < |fronts|
      ensures RearSent(streams, cfg, fronts, rears, camId, n) <==> !SkipsRear(cfg, n)
    {
      RearSentIff(streams, cfg, fronts, rears, camId, frontTotal, rearTotal, n);
    }
  }

  /** n samples of one byte each, in one packet each. */
  function ByteSamples(n: nat, gop: int): seq<VideoInfo>
    requires gop > 0
  {
    seq(n, i requires 0 <= i < n => VideoInfo([RtpMeta(1, i)], 1, i, FlagOf(i, gop)))
  }

  lemma ByteSampleTiles(i: nat, flag: int)
    ensures SampleTiles(VideoInfo([RtpMeta(1, i)], 1, i, flag))
  {
    var packets := [RtpMeta(1, i)];
    LensNonNegative(packets);
    assert Lens(packets) == [1] && [1][1..] == [] && Sum([1]) == 1 + Sum([]);
    assert Lens(packets)[..0] == [];
  }

  lemma ByteSamplesTile(n: nat, gop: int)
    requires gop > 0
    ensures Tiles(ByteSamples(n, gop), n, gop) && NonNegative(ByteSamples(n, gop))
  {
    var infos := ByteSamples(n, gop);
    forall i: nat | i < |infos| ensures TilesAt(infos, n, gop, i) {
      ByteSampleTiles(i, FlagOf(i, gop));
    }
  }

  /** 33 samples in GOPs of 30: rear sample 3 is sent, and sample 2 before it is not. */
  lemma RearFrameWithoutPredecessor(bytes: seq<byte>)
    requires |bytes| == 33
    ensures var infos := ByteSamples(33, 30);
      var cfg := Settings([30], false, false, 33);
      var streams := map[0 := [Stream(bytes, true, false), Stream(bytes, true, false)]];
      && NonNegative(infos)
      && RearSent(streams, cfg, infos, infos, 0, 3) && !RearSent(streams, cfg, infos, infos, 0, 2)
  {
    var infos := ByteSamples(33, 30);
    var cfg := Settings([30], false, false, 33);
    var streams := map[0 := [Stream(bytes, true, false), Stream(bytes, true, false)]];
    ByteSamplesTile(33, 30);
    assert GoodViews(streams, cfg, infos, infos, 0, 33, 33);
    RearSentIff(streams, cfg, infos, infos, 0, 33, 33, 3);
    RearSentIff(streams, cfg, infos, infos, 0, 33, 33, 2);
  }

  /** With a GOP dividing the count: the first two of each GOP, and all of the last. */
  lemma RearSentShape(streams: map<int, seq<Stream>>, cfg: Settings, fronts: seq<VideoInfo>, rears: seq<VideoInfo>,
                      camId: int, frontTotal: nat, rearTotal: nat, n: nat)
    requires GoodViews(streams, cfg, fronts, rears, camId, frontTotal, rearTotal) && |fronts| == |rears|
    requires !cfg.inCamSwitching && !cfg.pFrameTx && cfg.refVideoSampleCnt == |fronts|
    requires |fronts| % cfg.gops[0] == 0 && n < |fronts|
    ensures VideoJob(streams, cfg, map[], fronts[n], rears[n], camId, n) != []
    ensures RearSent(streams, cfg, fronts, rears, camId, n)
      <==> n % cfg.gops[0] <= 1 || n / cfg.gops[0] == |fronts| / cfg.gops[0] - 1
  {
    RearSentIff(streams, cfg, fronts, rears, camId, frontTotal, rearTotal, n);
    LastGopIff(n, |fronts|, cfg.gops[0]);
  }

  lemma LastGopIff(n: nat, cnt: nat, gop: int)
    requires gop > 0 && cnt % gop == 0 && n < cnt
    ensures n < cnt - gop <==> n / gop != cnt / gop - 1
  {
    var q, k := n / gop, cnt / gop;
    assert cnt == k * gop && n == q * gop + n % gop;
    assert (k - 1) * gop == k * gop - gop && (q + 1) * gop == q * gop + gop;
    if q <= k - 2 {
      MulMonotone(q + 1, k - 1, gop);
    } else {
      MulMonotone(k - 1, q, gop);
      if q >= k { MulMonotone(k, q, gop); }
    }
  }

  // ------------------------------------------------------------ a whole run

  /** The numbers of the samples read, in order, are all in the lists. */
  predicate Within(log: seq<int>, n: nat)
  {
    forall i :: 0 <= i < |log| ==> 0 <= log[i] < n
  }

  /** The jobs of the samples read. */
  function VideoJobs(streams: map<int, seq<Stream>>, cfg: Settings, m: HybridMap,
                     fronts: seq<VideoInfo>, rears: seq<VideoInfo>, camId: int, log: seq<int>): seq<seq<Sample>>
    requires ValidSettings(cfg) && Within(log, |fronts|) && Within(log, |rears|)
    requires NonNegative(fronts) && NonNegative(rears)
  {
    seq(|log|, i requires 0 <= i < |log| =>
      VideoJob(streams, cfg, m, fronts[log[i]], rears[log[i]], camId, log[i]))
  }

  lemma OneMoreVideoJob(streams: map<int, seq<Stream>>, cfg: Settings, m: HybridMap,
                        fronts: seq<VideoInfo>, rears: seq<VideoInfo>, camId: int, log: seq<int>, n: nat)
    requires ValidSettings(cfg) && Within(log, |fronts|) && Within(log, |rears|) && n < |fronts| && n < |rears|
    requires NonNegative(fronts) && NonNegative(rears)
    ensures VideoJobs(streams, cfg, m, fronts, rears, camId, log + [n])
      == VideoJobs(streams, cfg, m, fronts, rears, camId, log)
         + [VideoJob(streams, cfg, m, fronts[n], rears[n], camId, n)]
  {
  }

  /** Open streams whose index tiles their media bytes with samples of positive size. */
  ghost predicate GoodView(s: Stream, infos: seq<VideoInfo>, total: nat, gop: int)
    requires gop > 0
  {
    && s.open && !s.failed && total <= |s.bytes|
    && Tiles(infos, total, gop) && NonNegative(infos)
    && forall i :: 0 <= i < |infos| ==> infos[i].size > 0
  }

  lemma GoodViewCanRead(s: Stream, infos: seq<VideoInfo>, total: nat, gop: int, i: nat)
    requires gop > 0 && GoodView(s, infos, total, gop) && i < |infos|
    ensures CanRead(s, infos[i]) && ValidInfo(infos[i])
    ensures infos[i].offset + infos[i].size == if i + 1 < |infos| then infos[i + 1].offset else total
  {
    RegionsAscend(infos, total, gop, i, |infos|);
    OffsetsStep(infos, total, gop, i);
    assert TilesAt(infos, total, gop, i);
  }

  predicate AllInFile(bytes: seq<byte>, infos: seq<VideoInfo>)
  {
    forall i :: 0 <= i < |infos| ==> InFile(bytes, infos[i])
  }

  lemma GoodViewInFile(s: Stream, infos: seq<VideoInfo>, total: nat, gop: int)
    requires gop > 0 && GoodView(s, infos, total, gop)
    ensures AllInFile(s.bytes, infos)
  {
    forall i | 0 <= i < |infos| ensures InFile(s.bytes, infos[i]) {
      GoodViewCanRead(s, infos, total, gop, i);
    }
  }

  /** What one view of one sample puts on the wire: metadata when listed, else its file region. */
  ghost function ViewOnWire(gop: int, lists: seq<NotTx>, camId: int, vid: int, n: nat, info: VideoInfo,
                            bytes: seq<byte>): seq<byte>
    requires gop > 0 && InFile(bytes, info)
  {
    if Listed(lists, camId, vid, n) then
      MetaBinary(HybridSampleMeta(n, -1, -1, -1), if vid == 0 then 0 else 4, camId, vid,
                 if n % gop == 0 then "I" else "P")
    else Region(bytes, info)
  }

  lemma SentViewOnWire(gop: int, lists: seq<NotTx>, camId: int, vid: int, n: nat, info: VideoInfo, bytes: seq<byte>)
    requires gop > 0 && (vid == 0 || vid == 1) && InFile(bytes, info)
    requires forall j :: 0 <= j < |info.packets| ==> info.packets[j].len >= 0
    ensures var x := SentView(gop, lists, camId, vid, n, info, bytes);
      x.media == Video && x.buf == ViewOnWire(gop, lists, camId, vid, n, info, bytes)
  {
  }

  /** A sample: the front view, then the rear view unless it is neither listed nor due. */
  ghost function SampleOnWire(cfg: Settings, lists: seq<NotTx>, camId: int, n: nat, front: VideoInfo, rear: VideoInfo,
                              frontBytes: seq<byte>, rearBytes: seq<byte>): seq<byte>
    requires ValidSettings(cfg) && cfg.gops != [] && InFile(frontBytes, front) && InFile(rearBytes, rear)
  {
    ViewOnWire(cfg.gops[0], lists, camId, FRONT_VIDEO_VID, n, front, frontBytes)
    + if RearLeftOut(cfg, lists, camId, n) then []
      else ViewOnWire(cfg.gops[0], lists, camId, REAR_VIDEO_VID, n, rear, rearBytes)
  }

  /** Sample by sample, what a run puts on the wire. */
  ghost function RunOnWire(cfg: Settings, lists: seq<NotTx>, camId: int, fronts: seq<VideoInfo>, rears: seq<VideoInfo>,
                           frontBytes: seq<byte>, rearBytes: seq<byte>, log: seq<int>): seq<seq<byte>>
    requires ValidSettings(cfg) && cfg.gops != [] && Within(log, |fronts|) && Within(log, |rears|)
    requires AllInFile(frontBytes, fronts) && AllInFile(rearBytes, rears)
  {
    seq(|log|, i requires 0 <= i < |log| =>
      SampleOnWire(cfg, lists, camId, log[i], fronts[log[i]], rears[log[i]], frontBytes, rearBytes))
  }

  /** The regions of samples first..last-1. */
  function Regions(bytes: seq<byte>, infos: seq<VideoInfo>, first: nat, last: nat): seq<seq<byte>>
    requires first <= last <= |infos| && AllInFile(bytes, infos)
  {
    seq(last - first, i requires 0 <= i < last - first => Region(bytes, infos[first + i]))
  }

  /** Per sample, the front region then the rear region. */
  function FrontRear(front: seq<byte>, rear: seq<byte>, fronts: seq<VideoInfo>, rears: seq<VideoInfo>,
                     log: seq<int>): seq<seq<byte>>
    requires Within(log, |fronts|) && Within(log, |rears|)
    requires AllInFile(front, fronts) && AllInFile(rear, rears)
  {
    seq(|log|, i requires 0 <= i < |log| =>
      Region(front, fronts[log[i]]) + Region(rear, rears[log[i]]))
  }

  /** With P frames on and no lists, a run is the file regions. */
  lemma FullRunIsRegions(cfg: Settings, camId: int, fronts: seq<VideoInfo>, rears: seq<VideoInfo>,
                         front: seq<byte>, rear: seq<byte>, log: seq<int>)
    requires ValidSettings(cfg) && cfg.gops != [] && cfg.pFrameTx && Within(log, |fronts|) && Within(log, |rears|)
    requires AllInFile(front, fronts) && AllInFile(rear, rears)
    ensures RunOnWire(cfg, [], camId, fronts, rears, front, rear, log)
      == FrontRear(front, rear, fronts, rears, log)
  {
    forall i | 0 <= i < |log|
      ensures SampleOnWire(cfg, [], camId, log[i], fronts[log[i]], rears[log[i]], front, rear)
        == Region(front, fronts[log[i]]) + Region(rear, rears[log[i]])
    {
      assert !Listed([], camId, FRONT_VIDEO_VID, log[i]) && !Listed([], camId, REAR_VIDEO_VID, log[i]);
    }
  }

  /** One view's regions alone are one contiguous range of the file. */
  lemma {:induction false} RegionsAreContiguous(s: Stream, infos: seq<VideoInfo>, total: nat, gop: int,
                                                first: nat, last: nat)
    requires gop > 0 && GoodView(s, infos, total, gop) && first < last <= |infos|
    ensures AllInFile(s.bytes, infos)
    ensures var end := if last < |infos| then infos[last].offset else total;
      infos[first].offset <= end <= |s.bytes|
      && Flatten(Regions(s.bytes, infos, first, last)) == s.bytes[infos[first].offset..end]
    decreases last
  {
    var n := last - 1;
    GoodViewInFile(s, infos, total, gop);
    GoodViewCanRead(s, infos, total, gop, n);
    OneMoreRegion(s.bytes, infos, first, n);
    if first < n {
      RegionsAreContiguous(s, infos, total, gop, first, n);
      SliceJoin(s.bytes, infos[first].offset, infos[n].offset, infos[n].offset + infos[n].size);
    } else {
      assert Regions(s.bytes, infos, first, first) == [];
      NothingBefore(Region(s.bytes, infos[first]));
    }
  }

  lemma OneMoreRegion(bytes: seq<byte>, infos: seq<VideoInfo>, first: nat, n: nat)
    requires first <= n < |infos| && AllInFile(bytes, infos)
    ensures Flatten(Regions(bytes, infos, first, n + 1))
      == Flatten(Regions(bytes, infos, first, n)) + Region(bytes, infos[n])
  {
    assert Regions(bytes, infos, first, n + 1) == Regions(bytes, infos, first, n) + [Region(bytes, infos[n])];
    FlattenSnoc(Regions(bytes, infos, first, n), Region(bytes, infos[n]));
  }

  /** What one job writes. */
  lemma JobOnWire(streams: map<int, seq<Stream>>, cfg: Settings, lists: seq<NotTx>,
                  front: VideoInfo, rear: VideoInfo, camId: int, n: nat)
    requires ValidSettings(cfg) && cfg.gops != [] && ValidInfo(front) && ValidInfo(rear)
    requires camId in streams && |streams[camId]| >= 2
    requires CanRead(streams[camId][0], front) && CanRead(streams[camId][1], rear)
    ensures var job := VideoJob(streams, cfg, RecordAll(cfg.gops[0], lists), front, rear, camId, n);
      && job != [] && AllVideo(job)
      && StreamsAfterJob(streams, cfg, RecordAll(cfg.gops[0], lists), front, rear, camId, n) == streams
      && Flatten(MediaBufs(job, Video))
        == SampleOnWire(cfg, lists, camId, n, front, rear, streams[camId][0].bytes, streams[camId][1].bytes)
  {
    var gop := cfg.gops[0];
    var front', rear' := streams[camId][0].bytes, streams[camId][1].bytes;
    var f := SentView(gop, lists, camId, FRONT_VIDEO_VID, n, front, front');
    var r := SentView(gop, lists, camId, REAR_VIDEO_VID, n, rear, rear');
    EachViewOnce(streams, cfg, lists, front, rear, camId, n);
    SentViewOnWire(gop, lists, camId, FRONT_VIDEO_VID, n, front, front');
    SentViewOnWire(gop, lists, camId, REAR_VIDEO_VID, n, rear, rear');
    OneBuf(f);
    TwoBufs(f, r);
  }

  predicate AllVideo(job: seq<Sample>)
  {
    forall i :: 0 <= i < |job| ==> job[i].media == Video
  }

  lemma OneBuf(x: Sample)
    ensures Flatten(MediaBufs([x], x.media)) == x.buf && x.buf + [] == x.buf
  {
    assert [x][1..] == [] && MediaBufs([x], x.media) == [x.buf];
    FlattenSnoc<byte>([], x.buf);
    NothingBefore([x.buf]);
    NothingBefore(x.buf);
  }

  lemma TwoBufs(x: Sample, y: Sample)
    requires x.media == Video && y.media == Video
    ensures Flatten(MediaBufs([x, y], Video)) == x.buf + y.buf
  {
    assert [x, y] == [x] + [y];
    MediaBufsAppend([x], [y], Video);
    FlattenAppend(MediaBufs([x], Video), MediaBufs([y], Video));
    OneBuf(x);
    OneBuf(y);
  }

  lemma OneMoreJob(jobs: seq<seq<Sample>>, job: seq<Sample>, m: Media)
    ensures Flatten(MediaBufs(Flatten(jobs + [job]), m))
      == Flatten(MediaBufs(Flatten(jobs), m)) + Flatten(MediaBufs(job, m))
  {
    FlattenSnoc(jobs, job);
    MediaBufsAppend(Flatten(jobs), job, m);
    FlattenAppend(MediaBufs(Flatten(jobs), m), MediaBufs(job, m));
  }

  /** One sample of a run: both views can be read, so the job is as described and no stream starts to fail. */
  lemma RunJobOnWire(streams: map<int, seq<Stream>>, cfg: Settings, lists: seq<NotTx>, fronts: seq<VideoInfo>,
                     rears: seq<VideoInfo>, camId: int, frontTotal: nat, rearTotal: nat, n: nat)
    requires GoodViews(streams, cfg, fronts, rears, camId, frontTotal, rearTotal) && n < |fronts| && n < |rears|
    ensures InFile(streams[camId][0].bytes, fronts[n]) && InFile(streams[camId][1].bytes, rears[n])
    ensures var m := RecordAll(cfg.gops[0], lists);
      var job := VideoJob(streams, cfg, m, fronts[n], rears[n], camId, n);
      && job != [] && AllVideo(job)
      && StreamsAfterJob(streams, cfg, m, fronts[n], rears[n], camId, n) == streams
      && Flatten(MediaBufs(job, Video)) == SampleOnWire(cfg, lists, camId, n, fronts[n], rears[n],
                                                        streams[camId][0].bytes, streams[camId][1].bytes)
  {
    GoodViewCanRead(streams[camId][0], fronts, frontTotal, cfg.gops[0], n);
    GoodViewCanRead(streams[camId][1], rears, rearTotal, cfg.gops[0], n);
    JobOnWire(streams, cfg, lists, fronts[n], rears[n], camId, n);
  }

  /** Job by job, the buffers are the pieces; so are they together. */
  lemma {:induction false} JobsArePieces(jobs: seq<seq<Sample>>, pieces: seq<seq<byte>>, m: Media)
    requires |jobs| == |pieces|
    requires forall i :: 0 <= i < |jobs| ==> Flatten(MediaBufs(jobs[i], m)) == pieces[i]
    ensures Flatten(MediaBufs(Flatten(jobs), m)) == Flatten(pieces)
    decreases |jobs|
  {
    if jobs != [] {
      var n := |jobs| - 1;
      JobsArePieces(jobs[..n], pieces[..n], m);
      ExtendRun(jobs[..n], jobs[n], pieces[..n], pieces[n], m);
      UpToLast(jobs);
      UpToLast(pieces);
    }
  }

  lemma ExtendRun(jobs: seq<seq<Sample>>, job: seq<Sample>, run: seq<seq<byte>>, piece: seq<byte>, m: Media)
    requires Flatten(MediaBufs(Flatten(jobs), m)) == Flatten(run) && Flatten(MediaBufs(job, m)) == piece
    ensures Flatten(MediaBufs(Flatten(jobs + [job]), m)) == Flatten(run + [piece])
  {
    OneMoreJob(jobs, job, m);
    FlattenSnoc(run, piece);
  }

  lemma BothInFile(streams: map<int, seq<Stream>>, cfg: Settings, fronts: seq<VideoInfo>,
                   rears: seq<VideoInfo>, camId: int, frontTotal: nat, rearTotal: nat)
    requires GoodViews(streams, cfg, fronts, rears, camId, frontTotal, rearTotal)
    ensures AllInFile(streams[camId][0].bytes, fronts) && AllInFile(streams[camId][1].bytes, rears)
  {
    GoodViewInFile(streams[camId][0], fronts, frontTotal, cfg.gops[0]);
    GoodViewInFile(streams[camId][1], rears, rearTotal, cfg.gops[0]);
  }

  /** A run of any samples, whatever the settings and lists: view by view what each sample calls for. */
  lemma RunBufs(streams: map<int, seq<Stream>>, cfg: Settings, lists: seq<NotTx>, fronts: seq<VideoInfo>,
                rears: seq<VideoInfo>, camId: int, log: seq<int>, frontTotal: nat, rearTotal: nat)
    requires GoodViews(streams, cfg, fronts, rears, camId, frontTotal, rearTotal)
    requires Within(log, |fronts|) && Within(log, |rears|)
    ensures AllInFile(streams[camId][0].bytes, fronts) && AllInFile(streams[camId][1].bytes, rears)
    ensures var jobs := VideoJobs(streams, cfg, RecordAll(cfg.gops[0], lists), fronts, rears, camId, log);
      Flatten(MediaBufs(Flatten(jobs), Video))
      == Flatten(RunOnWire(cfg, lists, camId, fronts, rears,
                           streams[camId][0].bytes, streams[camId][1].bytes, log))
  {
    BothInFile(streams, cfg, fronts, rears, camId, frontTotal, rearTotal);
    var jobs := VideoJobs(streams, cfg, RecordAll(cfg.gops[0], lists), fronts, rears, camId, log);
    var pieces := RunOnWire(cfg, lists, camId, fronts, rears,
                            streams[camId][0].bytes, streams[camId][1].bytes, log);
    forall i | 0 <= i < |jobs| ensures Flatten(MediaBufs(jobs[i], Video)) == pieces[i] {
      RunPiece(streams, cfg, lists, fronts, rears, camId, log, frontTotal, rearTotal, i);
    }
    JobsArePieces(jobs, pieces, Video);
  }

  lemma RunPiece(streams: map<int, seq<Stream>>, cfg: Settings, lists: seq<NotTx>, fronts: seq<VideoInfo>,
                 rears: seq<VideoInfo>, camId: int, log: seq<int>, frontTotal: nat, rearTotal: nat, i: nat)
    requires GoodViews(streams, cfg, fronts, rears, camId, frontTotal, rearTotal)
    requires Within(log, |fronts|) && Within(log, |rears|) && i < |log|
    requires AllInFile(streams[camId][0].bytes, fronts) && AllInFile(streams[camId][1].bytes, rears)
    ensures var jobs := VideoJobs(streams, cfg, RecordAll(cfg.gops[0], lists), fronts, rears, camId, log);
      var pieces := RunOnWire(cfg, lists, camId, fronts, rears,
                              streams[camId][0].bytes, streams[camId][1].bytes, log);
      |jobs| == |pieces| == |log| && Flatten(MediaBufs(jobs[i], Video)) == pieces[i]
  {
    var n := log[i];
    RunJobOnWire(streams, cfg, lists, fronts, rears, camId, frontTotal, rearTotal, n);
    VideoJobIs(streams, cfg, RecordAll(cfg.gops[0], lists), fronts, rears, camId, log, i,
               VideoJob(streams, cfg, RecordAll(cfg.gops[0], lists), fronts[n], rears[n], camId, n));
    PieceIs(cfg, lists, camId, fronts, rears, streams[camId][0].bytes, streams[camId][1].bytes, log, i,
            SampleOnWire(cfg, lists, camId, n, fronts[n], rears[n], streams[camId][0].bytes, streams[camId][1].bytes));
  }

  lemma VideoJobIs(streams: map<int, seq<Stream>>, cfg: Settings, m: HybridMap, fronts: seq<VideoInfo>,
                   rears: seq<VideoInfo>, camId: int, log: seq<int>, i: nat, job: seq<Sample>)
    requires ValidSettings(cfg) && Within(log, |fronts|) && Within(log, |rears|) && i < |log|
    requires NonNegative(fronts) && NonNegative(rears)
    requires job == VideoJob(streams, cfg, m, fronts[log[i]], rears[log[i]], camId, log[i])
    ensures var jobs := VideoJobs(streams, cfg, m, fronts, rears, camId, log);
      |jobs| == |log| && jobs[i] == job
  {
  }

  lemma PieceIs(cfg: Settings, lists: seq<NotTx>, camId: int, fronts: seq<VideoInfo>, rears: seq<VideoInfo>,
                front: seq<byte>, rear: seq<byte>, log: seq<int>, i: nat, piece: seq<byte>)
    requires ValidSettings(cfg) && cfg.gops != [] && Within(log, |fronts|) && Within(log, |rears|) && i < |log|
    requires AllInFile(front, fronts) && AllInFile(rear, rears)
    requires piece == SampleOnWire(cfg, lists, camId, log[i], fronts[log[i]], rears[log[i]], front, rear)
    ensures var pieces := RunOnWire(cfg, lists, camId, fronts, rears, front, rear, log);
      |pieces| == |log| && pieces[i] == piece
  {
  }
}
