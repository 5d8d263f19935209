/** What one read hands to the pipeline, and what it does to the files, case by case. */
module Reads {
  import opened Common
  import opened Text
  import opened Pipeline
  import opened SampleIndex
  import opened HybridMeta
  import opened RtpHandling
  import opened Streaming

  /** The range can be read: no read of the stream has failed, and the bytes are there. */
  predicate Holds(s: Stream, offset: int, size: int)
  {
    !s.failed && 0 <= offset && 0 <= size && offset + size <= |s.bytes|
  }

  /** The rear view's sample is sent: while switching, with P frames on, in the last GOP, or among a GOP's first two. */
  predicate RearIsDue(cfg: Settings, gop: int, n: nat)
    requires gop > 0
  {
    cfg.inCamSwitching || cfg.pFrameTx || n >= cfg.refVideoSampleCnt - gop || n % gop <= 1
  }

  /** The camera can be read at all. */
  predicate CameraReady(streams: map<int, seq<Stream>>, cfg: Settings, front: VideoInfo, rear: VideoInfo, camId: int)
  {
    && front.size != 0 && rear.size != 0 && cfg.gops != []
    && camId in streams && |streams[camId]| >= 2 && streams[camId][0].open && streams[camId][1].open
  }

  /** A packet on a channel that tells the client to play a sample it holds: camera, view, frame type and number. */
  predicate Announces(x: Sample, channel: int, d: Decoded)
  {
    && x.lens == [|x.buf|] && |x.buf| > 10
    && x.buf[0] == 36 && x.buf[1] == channel
    && PayloadText(x.buf)[..6] == "local:"
    && DecodeMeta(x.buf) == Some(d)
  }

  /** The slices of a file range that an index entry names. */
  predicate IsFileRange(x: Sample, bytes: seq<byte>, info: VideoInfo)
    requires 0 <= info.offset && 0 <= info.size && info.offset + info.size <= |bytes|
  {
    && x.media == Video && x.buf == bytes[info.offset..info.offset + info.size]
    && |x.lens| == |info.packets| && forall j :: 0 <= j < |x.lens| ==> x.lens[j] == info.packets[j].len
  }

  // ---------------------------------------------------------------- one view

  lemma BinaryAnnounces(meta: HybridSampleMeta, media: Media, channel: byte, camId: int, vid: int, frameType: string)
    requires frameType == "I" || frameType == "P"
    ensures Announces(MetaSample(media, MetaBinary(meta, channel, camId, vid, frameType)), channel,
                      Decoded(camId, vid, frameType, meta))
  {
    MetaRoundTrip(meta, channel, camId, vid, frameType);
    HeadIsSent(meta, channel, camId, vid, frameType);
    OnePacketAnnounces(MetaBinary(meta, channel, camId, vid, frameType), media, channel,
                       Decoded(camId, vid, frameType, meta));
  }

  lemma OnePacketAnnounces(b: seq<byte>, media: Media, channel: byte, d: Decoded)
    requires |b| > 10 && b[0] == 36 && b[1] == channel && PayloadText(b)[..6] == "local:" && DecodeMeta(b) == Some(d)
    ensures Announces(MetaSample(media, b), channel, d)
  {
  }

  lemma HeadIsSent(meta: HybridSampleMeta, channel: byte, camId: int, vid: int, frameType: string)
    requires frameType == "I" || frameType == "P"
    ensures var b := MetaBinary(meta, channel, camId, vid, frameType);
      |b| > 10 && b[0] == 36 && b[1] == channel && PayloadText(b)[..6] == "local:"
  {
    var f := MetaFields(meta, camId, vid, frameType);
    FieldsArePlain(meta, camId, vid, frameType);
    JoinIsPlain(f);
    PayloadTextOf("local:" + Join(f, COMMA), channel);
    JoinLength7(f);
  }

  /** The sample a listed view makes, on channel 0 for the front and 4 for the rear. */
  lemma ListedIsAnnounced(m: HybridMap, gop: int, camId: int, vid: int, n: nat, info: VideoInfo, s: Stream)
    requires gop > 0 && ValidInfo(info) && (vid == 0 || vid == 1)
    requires Found(m, gop, camId, vid, n)
    ensures var view := ViewSample(m, gop, camId, vid, n, info, s);
      && view.Some? && view.value.media == Video
      && Announces(view.value, if vid == 0 then 0 else 4,
                   Decoded(camId, vid, if n % gop == 0 then "I" else "P", HybridSampleMeta(n, -1, -1, -1)))
  {
    BinaryAnnounces(HybridSampleMeta(n, -1, -1, -1), Video, if vid == 0 then 0 else 4, camId, vid,
                    if n % gop == 0 then "I" else "P");
  }

  lemma UnlistedIsRead(m: HybridMap, gop: int, camId: int, vid: int, n: nat, info: VideoInfo, s: Stream)
    requires gop > 0 && ValidInfo(info)
    requires Lookup(m, camId, ViewKey(vid, FrameType(n, gop)), n) == None
    ensures var view := ViewSample(m, gop, camId, vid, n, info, s);
      && (view.Some? <==> Holds(s, info.offset, info.size))
      && (view.Some? ==> IsFileRange(view.value, s.bytes, info))
  {
  }

  /** Whether one view of one sample is sent. */
  lemma ViewIsSentIff(gop: int, lists: seq<NotTx>, camId: int, vid: int, n: nat, info: VideoInfo, s: Stream)
    requires gop > 0 && ValidInfo(info)
    ensures var m := RecordAll(gop, lists);
      && (Lookup(m, camId, ViewKey(vid, FrameType(n, gop)), n).Some? <==> Listed(lists, camId, vid, n))
      && (ViewSample(m, gop, camId, vid, n, info, s).Some?
          <==> Listed(lists, camId, vid, n) || Holds(s, info.offset, info.size))
  {
    FoundIffListed(gop, lists);
    assert Found(RecordAll(gop, lists), gop, camId, vid, n) <==> Listed(lists, camId, vid, n);
  }

  /** One view of one sample, listed or not. */
  lemma ViewCases(gop: int, lists: seq<NotTx>, camId: int, vid: int, n: nat, info: VideoInfo, s: Stream)
    requires gop > 0 && ValidInfo(info) && (vid == 0 || vid == 1)
    ensures var view := ViewSample(RecordAll(gop, lists), gop, camId, vid, n, info, s);
      && (view.Some? <==> Listed(lists, camId, vid, n) || Holds(s, info.offset, info.size))
      && (Listed(lists, camId, vid, n) ==>
            && view.value.media == Video
            && Announces(view.value, if vid == 0 then 0 else 4,
                         Decoded(camId, vid, if n % gop == 0 then "I" else "P", HybridSampleMeta(n, -1, -1, -1))))
      && (view.Some? && !Listed(lists, camId, vid, n) ==> IsFileRange(view.value, s.bytes, info))
    ensures Lookup(RecordAll(gop, lists), camId, ViewKey(vid, FrameType(n, gop)), n).Some?
      <==> Listed(lists, camId, vid, n)
  {
    var m := RecordAll(gop, lists);
    FoundIffListed(gop, lists);
    assert Found(m, gop, camId, vid, n) <==> Listed(lists, camId, vid, n);
    if Listed(lists, camId, vid, n) {
      ListedIsAnnounced(m, gop, camId, vid, n, info, s);
    } else {
      UnlistedIsRead(m, gop, camId, vid, n, info, s);
    }
  }

  lemma DueIff(cfg: Settings, gop: int, n: nat)
    requires cfg.gops != [] && cfg.gops[0] == gop > 0
    ensures SkipsRear(cfg, n) <==> !RearIsDue(cfg, gop, n)
  {
  }

  // --------------------------------------------------------------- one sample

  lemma SomethingIsSentIff(streams: map<int, seq<Stream>>, cfg: Settings, gop: int, lists: seq<NotTx>,
                           front: VideoInfo, rear: VideoInfo, camId: int, n: nat)
    requires ValidSettings(cfg) && gop > 0 && (cfg.gops != [] ==> cfg.gops[0] == gop)
    requires ValidInfo(front) && ValidInfo(rear)
    ensures var job := VideoJob(streams, cfg, RecordAll(gop, lists), front, rear, camId, n);
      job != [] <==>
        && CameraReady(streams, cfg, front, rear, camId)
        && (Listed(lists, camId, 0, n) || Holds(streams[camId][0], front.offset, front.size))
  {
    if CameraReady(streams, cfg, front, rear, camId) {
      ViewIsSentIff(gop, lists, camId, 0, n, front, streams[camId][0]);
    }
  }

  lemma RearIsSentIff(streams: map<int, seq<Stream>>, cfg: Settings, gop: int, lists: seq<NotTx>,
                      front: VideoInfo, rear: VideoInfo, camId: int, n: nat)
    requires ValidSettings(cfg) && cfg.gops != [] && cfg.gops[0] == gop && ValidInfo(front) && ValidInfo(rear)
    requires camId in streams && |streams[camId]| >= 2
    ensures var job := VideoJob(streams, cfg, RecordAll(gop, lists), front, rear, camId, n);
      && |job| <= 2
      && (|job| == 2 <==>
            && job != []
            && (Listed(lists, camId, 1, n)
                || (RearIsDue(cfg, gop, n) && Holds(streams[camId][1], rear.offset, rear.size))))
  {
    ViewIsSentIff(gop, lists, camId, 1, n, rear, streams[camId][1]);
    DueIff(cfg, gop, n);
  }

  /**
   * Every case of a video read.  Something is sent exactly when the camera is
   * ready and the front view is listed or its range is there; the rear view goes
   * with it exactly when it is listed, or is due and its range is there.
   */
  lemma VideoReadCases(streams: map<int, seq<Stream>>, cfg: Settings, gop: int, lists: seq<NotTx>,
                       front: VideoInfo, rear: VideoInfo, camId: int, n: nat)
    requires ValidSettings(cfg) && gop > 0 && (cfg.gops != [] ==> cfg.gops[0] == gop)
    requires ValidInfo(front) && ValidInfo(rear)
    ensures var job := VideoJob(streams, cfg, RecordAll(gop, lists), front, rear, camId, n);
      && |job| <= 2
      && (job != [] <==>
            && CameraReady(streams, cfg, front, rear, camId)
            && (Listed(lists, camId, 0, n) || Holds(streams[camId][0], front.offset, front.size)))
      && (|job| == 2 <==>
            && job != []
            && (Listed(lists, camId, 1, n)
                || (RearIsDue(cfg, gop, n) && Holds(streams[camId][1], rear.offset, rear.size))))
  {
    SomethingIsSentIff(streams, cfg, gop, lists, front, rear, camId, n);
    if CameraReady(streams, cfg, front, rear, camId) {
      RearIsSentIff(streams, cfg, gop, lists, front, rear, camId, n);
    }
  }

  /**
   * What is sent: a listed view as the packet that announces it, on channel 0 or 4
   * and with its own number, and any other view as the range of its own file.
   */
  lemma VideoReadContents(streams: map<int, seq<Stream>>, cfg: Settings, gop: int, lists: seq<NotTx>,
                          front: VideoInfo, rear: VideoInfo, camId: int, n: nat)
    requires ValidSettings(cfg) && gop > 0 && (cfg.gops != [] ==> cfg.gops[0] == gop)
    requires ValidInfo(front) && ValidInfo(rear)
    ensures var job := VideoJob(streams, cfg, RecordAll(gop, lists), front, rear, camId, n);
      var frameType := if n % gop == 0 then "I" else "P";
      && (job != [] && Listed(lists, camId, 0, n) ==>
            && job[0].media == Video
            && Announces(job[0], 0, Decoded(camId, 0, frameType, HybridSampleMeta(n, -1, -1, -1))))
      && (job != [] && !Listed(lists, camId, 0, n) ==>
            && camId in streams && |streams[camId]| >= 2 && Holds(streams[camId][0], front.offset, front.size)
            && IsFileRange(job[0], streams[camId][0].bytes, front))
      && (|job| == 2 && Listed(lists, camId, 1, n) ==>
            && job[1].media == Video
            && Announces(job[1], 4, Decoded(camId, 1, frameType, HybridSampleMeta(n, -1, -1, -1))))
      && (|job| == 2 && !Listed(lists, camId, 1, n) ==>
            && camId in streams && |streams[camId]| >= 2 && Holds(streams[camId][1], rear.offset, rear.size)
            && IsFileRange(job[1], streams[camId][1].bytes, rear))
  {
    if CameraReady(streams, cfg, front, rear, camId) {
      ViewCases(gop, lists, camId, 0, n, front, streams[camId][0]);
      ViewCases(gop, lists, camId, 1, n, rear, streams[camId][1]);
      DueIff(cfg, gop, n);
    }
  }

  /** The file of a view was read, and the range was not there. */
  predicate ReadFails(streams: map<int, seq<Stream>>, cfg: Settings, gop: int, front: VideoInfo, rear: VideoInfo,
                      frontListed: bool, rearListed: bool, camId: int, vid: int, n: nat)
    requires gop > 0
  {
    && CameraReady(streams, cfg, front, rear, camId)
    && if vid == 0 then !frontListed && !Holds(streams[camId][0], front.offset, front.size)
       else
         && vid == 1 && !rearListed && RearIsDue(cfg, gop, n)
         && (frontListed || Holds(streams[camId][0], front.offset, front.size))
         && !Holds(streams[camId][1], rear.offset, rear.size)
  }

  lemma StreamAfterView(streams: map<int, seq<Stream>>, gop: int, lists: seq<NotTx>, camId: int, vid: nat, n: nat,
                        info: VideoInfo, c: int, v: nat)
    requires gop > 0 && ValidInfo(info) && (vid == 0 || vid == 1)
    requires camId in streams && vid < |streams[camId]| && c in streams && v < |streams[c]|
    ensures var after := StreamsAfterView(streams, RecordAll(gop, lists), gop, camId, vid, n, info);
      && after.Keys == streams.Keys && |after[c]| == |streams[c]|
      && after[c][v] == streams[c][v].(failed := streams[c][v].failed
           || (c == camId && v == vid && !Listed(lists, camId, vid, n)
               && !Holds(streams[camId][vid], info.offset, info.size)))
  {
    ViewIsSentIff(gop, lists, camId, vid, n, info, streams[camId][vid]);
    FailedAfterRead(streams[camId][vid], info.offset, info.size);
    OneStreamChanges(streams, camId, vid, AfterRead(streams[camId][vid], info.offset, info.size), c, v);
  }

  lemma FailedAfterRead(s: Stream, offset: int, size: int)
    ensures AfterRead(s, offset, size) == s.(failed := s.failed || !Holds(s, offset, size))
  {
  }

  lemma OneStreamChanges(streams: map<int, seq<Stream>>, camId: int, vid: nat, s: Stream, c: int, v: nat)
    requires camId in streams && vid < |streams[camId]| && c in streams && v < |streams[c]|
    ensures var after := streams[camId := streams[camId][vid := s]];
      && after.Keys == streams.Keys && |after[c]| == |streams[c]|
      && after[c][v] == if c == camId && v == vid then s else streams[c][v]
  {
  }

  /** A read changes a stream in one way only: one that lacks the range it was asked for fails, for good. */
  lemma StreamAfterRead(streams: map<int, seq<Stream>>, cfg: Settings, gop: int, lists: seq<NotTx>,
                        front: VideoInfo, rear: VideoInfo, camId: int, n: nat, c: int, v: nat)
    requires ValidSettings(cfg) && gop > 0 && (cfg.gops != [] ==> cfg.gops[0] == gop)
    requires ValidInfo(front) && ValidInfo(rear) && c in streams && v < |streams[c]|
    ensures var after := StreamsAfterJob(streams, cfg, RecordAll(gop, lists), front, rear, camId, n);
      && after.Keys == streams.Keys && |after[c]| == |streams[c]|
      && after[c][v] == streams[c][v].(failed := streams[c][v].failed
           || (c == camId && ReadFails(streams, cfg, gop, front, rear, Listed(lists, camId, 0, n),
                                       Listed(lists, camId, 1, n), camId, v, n)))
  {
    if CameraReady(streams, cfg, front, rear, camId) {
      var m := RecordAll(gop, lists);
      var read := StreamsAfterView(streams, m, gop, camId, 0, n, front);
      StreamAfterView(streams, gop, lists, camId, 0, n, front, c, v);
      StreamAfterView(streams, gop, lists, camId, 0, n, front, camId, 1);
      StreamAfterView(read, gop, lists, camId, 1, n, rear, c, v);
      ViewIsSentIff(gop, lists, camId, 0, n, front, streams[camId][0]);
      ViewIsSentIff(gop, lists, camId, 1, n, rear, streams[camId][1]);
      DueIff(cfg, gop, n);
    }
  }

  // -------------------------------------------------------------------- audio

  /** Every case of an audio read: the sample's own file range, or metadata on channel 1. */
  lemma AudioReadCases(m: HybridMap, s: Stream, n: int, offset: int, len: int)
    ensures var job := AudioJob(m, s, n, offset, len);
      && (m == map[] && s.open && Holds(s, offset, len) ==>
            job == [Sample(Audio, s.bytes[offset..offset + len], [len])])
      && (m == map[] && !(s.open && Holds(s, offset, len)) ==> job == [])
      && (m != map[] ==>
            && |job| == 1 && job[0].media == Audio
            && Announces(job[0], 1, Decoded(-1, -1, "I", HybridSampleMeta(n, -1, -1, -1))))
  {
    if m != map[] { BinaryAnnounces(HybridSampleMeta(n, -1, -1, -1), Audio, 1, -1, -1, "I"); }
  }

  lemma AudioStreamAfterRead(m: HybridMap, s: Stream, offset: int, len: int)
    ensures AudioStreamAfter(m, s, offset, len)
      == s.(failed := s.failed || (m == map[] && s.open && !Holds(s, offset, len)))
  {
  }
}
