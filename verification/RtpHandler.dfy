/** Reading samples, cutting them into packets and handing them to the pipeline. */
module RtpHandling {
  import opened Common
  import opened Pipeline
  import opened Delivery
  import opened SessionState
  import opened SampleIndex
  import opened HybridMeta
  import opened Interleaved

  const FRONT_VIDEO_VID := 0
  const REAR_VIDEO_VID := 1
  const AUDIO_ID := 1

  // ------------------------------------------------------------------ streams

  /** A std::ifstream: once a read has failed, every later read fails. */
  datatype Stream = Stream(bytes: seq<byte>, open: bool, failed: bool)

  function ReadAt(s: Stream, offset: int, len: int): Option<seq<byte>>
  {
    if !s.failed && 0 <= offset && 0 <= len && offset + len <= |s.bytes| then Some(s.bytes[offset..offset + len])
    else None
  }

  function AfterRead(s: Stream, offset: int, len: int): Stream
  {
    if ReadAt(s, offset, len).Some? then s else s.(failed := true)
  }

  // --------------------------------------------- what reading a sample produces

  datatype Settings = Settings(gops: seq<int>, inCamSwitching: bool, pFrameTx: bool, refVideoSampleCnt: int)

  predicate ValidSettings(cfg: Settings)
  {
    cfg.gops != [] ==> cfg.gops[0] > 0
  }

  /** An index entry whose packets add up to its size. */
  ghost predicate ValidInfo(info: VideoInfo)
  {
    SampleTiles(info) && forall j :: 0 <= j < |info.packets| ==> info.packets[j].len >= 0
  }

  function PacketLens(packets: seq<RtpMeta>): seq<nat>
    requires forall j :: 0 <= j < |packets| ==> packets[j].len >= 0
  {
    seq(|packets|, j requires 0 <= j < |packets| => packets[j].len)
  }

  function Channel(vid: int): byte
  {
    match vid
    case 0 => 0x00
    case 1 => 0x04
    case 2 => 0x06
    case 3 => 0x08
    case _ => 0xFF
  }

  function MetaSample(media: Media, binary: seq<byte>): Sample
  {
    Sample(media, binary, [|binary|])
  }

  function VideoMetaSample(meta: HybridSampleMeta, camId: int, vid: int, frameType: string): Sample
  {
    MetaSample(Video, MetaBinary(meta, Channel(vid), camId, vid, frameType))
  }

  /** Whether the rear view's sample is a P frame not to be sent now. */
  predicate SkipsRear(cfg: Settings, sampleNo: int)
    requires cfg.gops != [] && cfg.gops[0] > 0
  {
    && !cfg.inCamSwitching && !cfg.pFrameTx
    && sampleNo < cfg.refVideoSampleCnt - cfg.gops[0]
    && TruncMod(sampleNo, cfg.gops[0]) > 1
  }

  /** One view of one sample: a meta packet, its slices, or None when the read fails. */
  function ViewSample(m: HybridMap, gop: int, camId: int, vid: int, sampleNo: int,
                      info: VideoInfo, s: Stream): Option<Sample>
    requires gop > 0 && forall j :: 0 <= j < |info.packets| ==> info.packets[j].len >= 0
  {
    var frameType := FrameType(sampleNo, gop);
    match Lookup(m, camId, ViewKey(vid, frameType), sampleNo)
    case Some(meta) => Some(VideoMetaSample(meta, camId, vid, frameType))
    case None =>
      match ReadAt(s, info.offset, info.size)
      case None => None
      case Some(buf) => Some(Sample(Video, buf, PacketLens(info.packets)))
  }

  predicate RearListed(m: HybridMap, gop: int, camId: int, sampleNo: int)
    requires gop > 0
  {
    Lookup(m, camId, ViewKey(REAR_VIDEO_VID, FrameType(sampleNo, gop)), sampleNo).Some?
  }

  /** Everything that makes readVideoSample give up before it looks at either view. */
  predicate Readable(streams: map<int, seq<Stream>>, cfg: Settings, front: VideoInfo, rear: VideoInfo, camId: int)
  {
    && front.size != 0 && rear.size != 0
    && camId in streams && |streams[camId]| >= 2
    && cfg.gops != []
    && streams[camId][0].open && streams[camId][1].open
  }

  /** The samples one call of readVideoSample hands to the pipeline. */
  function VideoJob(streams: map<int, seq<Stream>>, cfg: Settings, m: HybridMap,
                    front: VideoInfo, rear: VideoInfo, camId: int, sampleNo: int): seq<Sample>
    requires ValidSettings(cfg)
    requires forall j :: 0 <= j < |front.packets| ==> front.packets[j].len >= 0
    requires forall j :: 0 <= j < |rear.packets| ==> rear.packets[j].len >= 0
  {
    if !Readable(streams, cfg, front, rear, camId) then []
    else
      var gop := cfg.gops[0];
      match ViewSample(m, gop, camId, FRONT_VIDEO_VID, sampleNo, front, streams[camId][0])
      case None => []
      case Some(f) =>
        if !RearListed(m, gop, camId, sampleNo) && SkipsRear(cfg, sampleNo) then [f]
        else
          match ViewSample(m, gop, camId, REAR_VIDEO_VID, sampleNo, rear, streams[camId][1])
          case None => [f]
          case Some(r) => [f, r]
  }

  /** The streams afterwards: only a view that was read can have started to fail. */
  function StreamsAfterView(streams: map<int, seq<Stream>>, m: HybridMap, gop: int, camId: int, vid: nat,
                            sampleNo: int, info: VideoInfo): map<int, seq<Stream>>
    requires gop > 0 && camId in streams && vid < |streams[camId]|
  {
    if Lookup(m, camId, ViewKey(vid, FrameType(sampleNo, gop)), sampleNo).Some? then streams
    else streams[camId := streams[camId][vid := AfterRead(streams[camId][vid], info.offset, info.size)]]
  }

  function StreamsAfterJob(streams: map<int, seq<Stream>>, cfg: Settings, m: HybridMap,
                           front: VideoInfo, rear: VideoInfo, camId: int, sampleNo: int): map<int, seq<Stream>>
    requires ValidSettings(cfg)
    requires forall j :: 0 <= j < |front.packets| ==> front.packets[j].len >= 0
  {
    if !Readable(streams, cfg, front, rear, camId) then streams
    else
      var gop := cfg.gops[0];
      var read := StreamsAfterView(streams, m, gop, camId, FRONT_VIDEO_VID, sampleNo, front);
      if ViewSample(m, gop, camId, FRONT_VIDEO_VID, sampleNo, front, streams[camId][0]) == None then read
      else if !RearListed(m, gop, camId, sampleNo) && SkipsRear(cfg, sampleNo) then read
      else StreamsAfterView(read, m, gop, camId, REAR_VIDEO_VID, sampleNo, rear)
  }

  /** The sample one call of readAudioSample hands to the pipeline. */
  function AudioJob(m: HybridMap, s: Stream, sampleNo: int, offset: int, len: int): seq<Sample>
  {
    if m == map[] then
      if !s.open then []
      else match ReadAt(s, offset, len)
        case None => []
        case Some(buf) => [Sample(Audio, buf, [|buf|])]
    else [MetaSample(Audio, MetaBinary(HybridSampleMeta(sampleNo, -1, -1, -1), AUDIO_ID, -1, -1, KEY_FRAME_TYPE))]
  }

  /** A view's packet lengths add up to the size of the sample it makes. */
  lemma ViewWellFormed(m: HybridMap, gop: int, camId: int, vid: int, sampleNo: int, info: VideoInfo, s: Stream)
    requires gop > 0 && ValidInfo(info)
    ensures var view := ViewSample(m, gop, camId, vid, sampleNo, info, s); view.Some? ==> view.value.WellFormed()
  {
    LensNonNegative(info.packets);
    assert PacketLens(info.packets) == Lens(info.packets);
    var frameType := FrameType(sampleNo, gop);
    var meta := Lookup(m, camId, ViewKey(vid, frameType), sampleNo);
    if meta.Some? { OneLength(MetaBinary(meta.value, Channel(vid), camId, vid, frameType)); }
  }

  lemma OneLength(binary: seq<byte>)
    ensures MetaSample(Video, binary).WellFormed() && MetaSample(Audio, binary).WellFormed()
  {
    assert [|binary|][1..] == [];
  }

  /** Every job a read can produce keeps the pipeline's invariants. */
  lemma VideoJobWellFormed(streams: map<int, seq<Stream>>, cfg: Settings, m: HybridMap,
                           front: VideoInfo, rear: VideoInfo, camId: int, sampleNo: int)
    requires ValidSettings(cfg) && ValidInfo(front) && ValidInfo(rear)
    ensures WellFormedEvent(BeginJob(VideoJob(streams, cfg, m, front, rear, camId, sampleNo)))
  {
    if Readable(streams, cfg, front, rear, camId) {
      ViewWellFormed(m, cfg.gops[0], camId, FRONT_VIDEO_VID, sampleNo, front, streams[camId][0]);
      ViewWellFormed(m, cfg.gops[0], camId, REAR_VIDEO_VID, sampleNo, rear, streams[camId][1]);
    }
  }

  lemma AudioJobWellFormed(m: HybridMap, s: Stream, sampleNo: int, offset: int, len: int)
    ensures WellFormedEvent(BeginJob(AudioJob(m, s, sampleNo, offset, len)))
  {
    var buf := ReadAt(s, offset, len);
    if buf.Some? { OneLength(buf.value); }
    OneLength(MetaBinary(HybridSampleMeta(sampleNo, -1, -1, -1), AUDIO_ID, -1, -1, KEY_FRAME_TYPE));
  }

  /** The audio stream afterwards: only a read that lacks its range makes it fail. */
  function AudioStreamAfter(m: HybridMap, s: Stream, offset: int, len: int): Stream
  {
    if m == map[] && s.open then AfterRead(s, offset, len) else s
  }

  // ------------------------------------------------------------- the methods

  class RtpHandler {
    var camStreams: map<int, seq<Stream>>
    var audioStream: Stream

    constructor (camStreams: map<int, seq<Stream>>, audioStream: Stream)
      ensures this.camStreams == camStreams && this.audioStream == audioStream
    {
      this.camStreams, this.audioStream := camStreams, audioStream;
    }

    /** Cuts a sample with a running offset, pushing each packet to both queues. */
    method EnqueueSample(session: Session, sample: Sample)
      requires Enabled(session.Abs(), CreateSample) && session.toCreate[0] == sample
      requires |session.refCount| == |session.samples|
      modifies session
      ensures FinishStrand(session.Abs()) == FinishStrand(old(session.Abs()))
      ensures session.toCreate == old(session.toCreate[1..]) && session.toPush == [] && session.handoff == None
      ensures |session.refCount| == |session.samples|
    {
      var sid := session.NewSample(sample);
      var offset, i := 0, 0;
      assert sample.lens[0..] == sample.lens;
      while i < |sample.lens|
        invariant 0 <= i <= |sample.lens|
        invariant session.toPush == Cut(sid, sample, sample.lens[i..], offset) && session.handoff == None
        invariant session.toCreate == old(session.toCreate[1..]) && |session.refCount| == |session.samples|
        invariant FinishStrand(session.Abs()) == FinishStrand(old(session.Abs()))
      {
        var rtpInfo := Packet(sid, sample, offset, sample.lens[i]);
        offset := offset + sample.lens[i];
        assert sample.lens[i..][1..] == sample.lens[i + 1..];
        session.EnqueueRtpForMemoryMgmt(rtpInfo);
        session.EnqueueRtpInfo(rtpInfo);
        i := i + 1;
      }
    }

    /** One view: its meta packet if the client holds the sample, else its slices. */
    method EnqueueView(session: Session, hybridMetaMap: HybridMap, gop: int, camId: int, vid: nat,
                       sampleNo: int, info: VideoInfo) returns (ok: bool)
      requires gop > 0 && ValidInfo(info) && camId in camStreams && vid < |camStreams[camId]|
      requires var view := ViewSample(hybridMetaMap, gop, camId, vid, sampleNo, info, camStreams[camId][vid]);
        view.Some? ==> session.toCreate != [] && session.toCreate[0] == view.value
      requires session.toPush == [] && session.handoff == None && |session.refCount| == |session.samples|
      modifies this`camStreams, session
      ensures ok <==> ViewSample(hybridMetaMap, gop, camId, vid, sampleNo, info, old(camStreams[camId][vid])).Some?
      ensures !ok ==> session.Abs() == old(session.Abs())
      ensures ok ==>
        && FinishStrand(session.Abs()) == FinishStrand(old(session.Abs()))
        && session.toCreate == old(session.toCreate)[1..] && session.toPush == [] && session.handoff == None
        && |session.refCount| == |session.samples|
      ensures camStreams == StreamsAfterView(old(camStreams), hybridMetaMap, gop, camId, vid, sampleNo, info)
    {
      var frameType := FrameType(sampleNo, gop);
      var hybridMeta := Lookup(hybridMetaMap, camId, ViewKey(vid, frameType), sampleNo);
      if hybridMeta.Some? {
        var metaData := GetHybridMetaBinary(hybridMeta.value, Channel(vid), camId, vid, frameType);
        EnqueueSample(session, MetaSample(Video, metaData));
      } else {
        var stream := camStreams[camId][vid];
        var buf := ReadAt(stream, info.offset, info.size);
        camStreams := camStreams[camId := camStreams[camId][vid := AfterRead(stream, info.offset, info.size)]];
        if buf == None {
          return false;
        }
        EnqueueSample(session, Sample(Video, buf.value, PacketLens(info.packets)));
      }
      return true;
    }

    method ReadVideoSample(session: Session, cfg: Settings, hybridMetaMap: HybridMap,
                           front: VideoInfo, rear: VideoInfo, camId: int, sampleNo: int)
      requires ValidSettings(cfg) && ValidInfo(front) && ValidInfo(rear)
      requires session.toCreate == VideoJob(camStreams, cfg, hybridMetaMap, front, rear, camId, sampleNo)
      requires session.toPush == [] && session.handoff == None && |session.refCount| == |session.samples|
      modifies this`camStreams, session
      ensures session.Abs() == FinishStrand(old(session.Abs()))
      ensures camStreams == StreamsAfterJob(old(camStreams), cfg, hybridMetaMap, front, rear, camId, sampleNo)
    {
      if front.size == 0 || rear.size == 0 {
        return;
      }
      if camId !in camStreams || |camStreams[camId]| < 2 {
        return;
      }
      if cfg.gops == [] {
        return;
      }
      if !camStreams[camId][0].open || !camStreams[camId][1].open {
        return;
      }
      ReadViews(session, cfg, hybridMetaMap, front, rear, camId, sampleNo);
    }

    /** The front view, then the rear view unless it is a P frame not to be sent now. */
    method ReadViews(session: Session, cfg: Settings, hybridMetaMap: HybridMap,
                     front: VideoInfo, rear: VideoInfo, camId: int, sampleNo: int)
      requires ValidSettings(cfg) && ValidInfo(front) && ValidInfo(rear)
      requires Readable(camStreams, cfg, front, rear, camId)
      requires session.toCreate == VideoJob(camStreams, cfg, hybridMetaMap, front, rear, camId, sampleNo)
      requires session.toPush == [] && session.handoff == None && |session.refCount| == |session.samples|
      modifies this`camStreams, session
      ensures session.Abs() == FinishStrand(old(session.Abs()))
      ensures camStreams == StreamsAfterJob(old(camStreams), cfg, hybridMetaMap, front, rear, camId, sampleNo)
    {
      var gop := cfg.gops[0];
      var ok := EnqueueView(session, hybridMetaMap, gop, camId, FRONT_VIDEO_VID, sampleNo, front);
      if !ok {
        return;
      }
      if !RearListed(hybridMetaMap, gop, camId, sampleNo) && SkipsRear(cfg, sampleNo) {
        return;
      }
      ok := EnqueueView(session, hybridMetaMap, gop, camId, REAR_VIDEO_VID, sampleNo, rear);
    }

    method ReadAudioSample(session: Session, hybridMetaMap: HybridMap, sampleNo: int, offset: int, len: int)
      requires session.toCreate == AudioJob(hybridMetaMap, audioStream, sampleNo, offset, len)
      requires session.toPush == [] && session.handoff == None && |session.refCount| == |session.samples|
      modifies this`audioStream, session
      ensures session.Abs() == FinishStrand(old(session.Abs()))
      ensures audioStream == AudioStreamAfter(hybridMetaMap, old(audioStream), offset, len)
    {
      if hybridMetaMap == map[] {
        if !audioStream.open {
          return;
        }
        var buf := ReadAt(audioStream, offset, len);
        audioStream := AfterRead(audioStream, offset, len);
        if buf == None {
          return;
        }
        EnqueueSample(session, Sample(Audio, buf.value, [|buf.value|]));
      } else {
        var audioSampleMeta := HybridSampleMeta(sampleNo, -1, -1, -1);
        var metaData := GetHybridMetaBinary(audioSampleMeta, AUDIO_ID, -1, -1, KEY_FRAME_TYPE);
        EnqueueSample(session, MetaSample(Audio, metaData));
      }
    }
  }
}
