# A model of the RTSP/RTP streaming server, with proofs

The server reads video and audio samples from stored files, cuts them into the RTP
packets an index names, and writes them to the client over the RTSP connection
itself (section 10.12 of RFC 2326). This project models the parts of it where a
mistake loses, repeats or corrupts data, and proves what they guarantee.

## What is modelled

**The delivery pipeline** (`Pipeline`, `Delivery`, `Atomicity`, `Session`). A session has two
actors. The *strand* runs one task at a time: it reads a sample, sets its `refCount`
to its number of packets, and pushes each packet first to the owning queue
`rtpMemoryQueue` and then, as a raw pointer, to `rtpQueuePtr`; it also reclaims from
the front of the owning queue and switches the pause flag. The *tx thread* pops a
pointer, writes the slice, decrements `refCount` and gives the bytes back to the
budget. `Pipeline` is a state machine over the finest of these steps (begin a job,
create a sample, push to memory, push to the tx queue, pop, write and account,
reclaim, set pause), and `Reachable` means: after any interleaving of enabled steps.
Nothing bounds the number of reading tasks: any job may begin whenever the strand is
idle, so the results hold for the normal readers, for overlapping readers and for the
25-sample burst after a camera switch. `Session` has the same operations as
methods over mutable queues and counters, each proved to be the step of the state
machine it stands for; `Atomicity` shows by commuting steps that a job of the strand, or
a call of the reclaimer, that the tx thread interferes with has the same effect as one
taken at once, which is how those methods are stated.

**The index and the packets** (`SampleIndex`, `RtpHandler`, `Streaming`, `Reads`, `Playback`,
`Interleaved`, `Socket`). Big-endian 16-bit numbers at the tail of a media file, with -1 before
each sample, become samples and packets with running offsets. The reader cuts the
samples again with a second running offset of its own. `Streaming` joins both to the
pipeline: what is on the wire is what is in the files. `Reads` says case by case what one read
sends and what it does to the files, in terms of the file bytes and of the client's lists alone.
`Playback` puts the video reader, the audio reader and the pipeline into one machine and
proves it for whole plays, with pauses and resumes; the tasks of the class `StreamHandler` are
steps of that machine.
The pipeline's wire holds the RTP bytes alone; `Socket` adds the RTSP answers that share
the connection.

**Choosing samples** (`HybridMeta`, `Reader`, `Seek`). The three-level map of samples
a client holds locally and the metadata packet sent in their place, the rule that
leaves out rear P frames, the reading cursor over pauses and resumes, and the
arithmetic of key-frame seeking and of presentation times.

**The control connection** (`Framing`, `Rtsp`, `RequestText`, with `Text` and `Decimal` below
them). Requests cut from arbitrary TCP reads, the CSeq gate, and the answers that end a
session. `RequestText` spells whole requests and answers out and follows a conversation
from the bytes a client sends to the answers it gets. `Framing` is generic in what is
done with a request; `Rtsp` supplies the handler. What a method does after the gate has
let it through is a function `Application` of the requests accepted so far: it may reply
with any text, refuse with any status, or throw.

**The reference clock** (`Sntp`). NTP timestamps with a random low byte, the clock
offset of an exchange, and the rejecting and halving filter (RFC 4330).

Where the source changes state in place there is a class whose methods are proved
against a function on values; the properties are then lemmas about those functions.

## Where the code falls short of what one would expect

Each of these has an exact condition, proved in both directions, and an input that meets it.

- A timestamp before 1970 that is not a whole second is read back 999 or 1000 ms late
  (`Sntp.TimeStampRoundTripIff`, `Sntp.LastMillisecondOf1969`).
- With P frames off, the rear frames sent form a prefix of every GOP only if the
  sample count leaves at most 2 modulo the GOP, or is below one GOP
  (`Streaming.RearPrefixIff`, `Streaming.RearFrameWithoutPredecessor`).
- A NEAREST seek into the middle of an odd GOP takes the later key though the earlier
  one is closer (`Seek.KeySeekNearest`, `Seek.NearestTakesTheFarther`).
- A NEXT seek past the last key frame names a sample beyond the media
  (`Seek.NextKeyInRangeIff`, `Seek.NextKeyBeyondTheMedia`), and a play range that holds no
  key reads nothing (`Seek.PlayRangeIff`, `Reading.PlayWithoutKeyReadsNothing`).
- A resume that reports a sample never sent leaves a gap (`Reading.ResumeCoversIff`,
  `Reading.ResumeAheadLeavesGap`).
- The duration of a frame is truncated, so counting samples from presentation times
  drifts; the exact limit is `Seek.SampleOfPresentationIff`, met first as in
  `Seek.FirstDriftedSample`.
- Audio offsets are narrowed to 32 bits and are right only below 2^31
  (`SampleIndex.AudioOffsets`, `SampleIndex.AudioOffsetWraps`).

## Model

| member | source | states |
|---|---|---|
| `Delivery.RefCountExactAndNoDanglingPointer` | src/service/Session.cpp:534-658 | after any interleaving, every sample's `refCount` is the number of its packets not yet accounted as sent, and every pointer in the tx queue, in flight or being handed over is owned by `rtpMemoryQueue`, in bounds, and of a sample that cannot be reclaimed |
| `Delivery.PoppedPacketCanBeWritten` | src/service/Session.cpp:624-658 | the tx thread never holds a pointer to a freed packet: what it has popped it can write |
| `Delivery.ReclaimedPacketWasSent` | src/service/Session.cpp:534-548 | reclaiming frees only packets that were sent and are nowhere pending |
| `Delivery.ByteBudget` | src/service/Session.cpp:588-611 | `allocatedBytesForSample` is exactly the bytes enqueued and not yet sent, never negative, and below 5 MiB plus the largest job, for any number of readers |
| `Delivery.WireRefinesDirectWrite` | src/service/Session.cpp:624-658 | bytes written, then bytes still held, are the direct write of the jobs' buffers; what is written is always a prefix of it |
| `Delivery.PacketsSentOnceInOrder` | src/service/Session.cpp:588-658 | packets are sent in order and once: the sent log is a prefix of the cut of all samples, and the rest of that cut is what is unsent |
| `Delivery.DrainedWroteEverything` | src/service/Session.cpp:624-658 | once drained, everything begun was written, the budget and all counts are zero, and each medium's bytes are its buffers in order |
| `Delivery.CanAlwaysDrain` | src/service/Session.cpp:78-92 | from any idle unpaused reachable state, pops and writes alone drain the pipeline, in exactly two steps per queued packet |
| `Delivery.StrandFinishes` | src/service/RtpHandler.cpp:144-257 | a begun job taken to its end creates exactly its samples and leaves the tx side alone; `Atomicity.JobIsAtomic` carries this to jobs the tx thread interferes with |
| `Delivery.PausedBeginsNothing` | src/service/Session.cpp:354-369 | while paused no reading task begins a job, whatever else goes on: the samples made are those of jobs begun before |
| `Atomicity.JobIsAtomic` | src/service/RtpHandler.cpp:144-257 | a job interleaved with the tx thread in any way ends as if the job had run at once and the tx thread's own steps had followed, so the reading methods may be taken as one step |
| `Atomicity.TxAfterJob` | src/service/Session.cpp:588-658 | every step of the tx thread commutes with every step of a job |
| `Delivery.ReclaimIsExact` | src/service/Session.cpp:534-548 | a whole call with no tx step in between removes exactly the packets of fully sent samples: none is left, and no other is removed |
| `Atomicity.ReclaimIsAtomic` | src/service/Session.cpp:534-548 | a call interleaved with the tx thread in any way, up to the test that ends it, is those tx steps followed by the whole call at once |
| `Atomicity.InterleavedReclaimIsTight` | src/service/Session.cpp:534-548 | however the tx thread interferes: what a call leaves has unsent packets, the buffers kept alive are at most the unsent bytes plus one sample, and none is kept once the queue is drained |
| `Delivery.RetainedMemoryIsTight` | src/service/Session.cpp:534-548 | the same bound for a whole call with no tx step in between |
| `Pipeline.StepKeepsInv` | src/service/Session.cpp:534-658 | every step keeps the order, ownership, count, budget and wire invariants |
| `Pipeline.PlanTiles` | src/service/RtpHandler.cpp:175-190 | the slices of any samples, one after the other, are the samples' buffers one after the other |
| `SessionState.Session.constructor` | include/Session.h:33-59 | a new session has empty queues and a zero budget |
| `SessionState.Session.IsNewSampleAllocatable` | src/service/Session.cpp:606-611 | true exactly below 5 MiB |
| `SessionState.Session.UpdatePauseStatus` | src/service/Session.cpp:181-183 | the pause step and nothing else |
| `SessionState.Session.NewSample` | src/service/RtpHandler.cpp:168-177 | a new sample whose `refCount` is its packet count |
| `SessionState.Session.EnqueueRtpForMemoryMgmt` | src/service/Session.cpp:593-596 | the packet is owned and its bytes are in the budget |
| `SessionState.Session.EnqueueRtpInfo` | src/service/Session.cpp:588-591 | the pointer is at the end of the tx queue |
| `SessionState.Session.TransmitRtp` | src/service/Session.cpp:624-658 | writes the front packet's slice, decrements its sample's count, gives its bytes back and counts its bits in a 32-bit integer; an empty queue changes nothing |
| `SessionState.Session.TxRound` | src/service/Session.cpp:78-92 | a round of the tx loop does nothing while paused or with an empty queue, and otherwise writes the front packet's slice |
| `SessionState.TransmitIsSafe` | src/service/Session.cpp:624-658 | what `TransmitRtp` demands holds in every reachable state with a queued packet, and the result is reachable |
| `SessionState.Session.DeleteDanglingRtps` | src/service/Session.cpp:534-548 | between two tx steps: keeps exactly the packets whose sample still has unsent packets |
| `SampleIndex.GetSizes` | src/server/file/ContentFileMeta.cpp:465-476 | the signed big-endian 16-bit numbers of the metadata |
| `SampleIndex.SizesOfSerialize` | src/server/file/ContentFileMeta.cpp:465-476 | reading the printed form of any 16-bit numbers gives them back |
| `SampleIndex.SerializeOfSizes` | src/server/file/ContentFileMeta.cpp:465-476 | printing what was read gives back the metadata bytes |
| `SampleIndex.MetaDataRoundTrip` | src/server/file/ContentFileMeta.cpp:435-463 | the metadata stored before its 4-byte length at the tail of a file is read back |
| `SampleIndex.ReadMetaDataIff` | src/server/file/ContentFileMeta.cpp:435-463 | whatever stands before them, the last four bytes decide: a length from 1 to what is there gives just the bytes before them, any other fails |
| `SampleIndex.Be32RoundTrip` | constants/Util.h:269-280 | the 4-byte length is read back |
| `SampleIndex.IndexRoundTrip` | src/server/file/ContentFileMeta.cpp:363-407 | an index exists exactly if the list is empty or starts with -1, and re-serialising it gives the list back |
| `SampleIndex.IndexTiles` | src/server/file/ContentFileMeta.cpp:382-400 | samples stand back to back from 0 to the sum of the lengths, packets tile their sample, sizes are sums, and the key flag of sample i is 1 if i is a multiple of the GOP and else 0 |
| `SampleIndex.RegionsAscend` | src/server/file/ContentFileMeta.cpp:382-400 | with no negative length, regions are disjoint, in order and inside the media bytes |
| `SampleIndex.StoredFileLoads` | src/server/file/ContentFileMeta.cpp:363-476 | a stored file loads to an index that prints to the very metadata bytes and tiles exactly the media bytes |
| `SampleIndex.LoadRtpMemberVideoMetaData` | src/server/file/ContentFileMeta.cpp:374-404 | the mutating loader builds distinct, completed objects holding that index, and its vector access throws exactly without a GOP or a leading separator |
| `SampleIndex.LoadRtpAudioMetaData` | src/server/file/ContentFileMeta.cpp:283-299 | one entry per number, at the prefix sum narrowed to 32 bits |
| `SampleIndex.AudioOffsets` | src/server/file/access/AudioSampleInfo.cpp:3-4 | the stored offset is the true one modulo 2^32, and equals it exactly while that is below 2^31 |
| `SampleIndex.AudioOffsetWraps` | src/server/file/ContentFileMeta.cpp:291-295 | 65540 packets of the largest length: the last stored offset is wrong |
| `RtpHandling.RtpHandler.EnqueueSample` | src/service/RtpHandler.cpp:175-190 | cutting with the running offset and pushing to both queues completes the sample's steps of the pipeline |
| `RtpHandling.RtpHandler.ReadVideoSample` | src/service/RtpHandler.cpp:96-262 | one call hands the front then the rear view to the pipeline, as metadata, slices or not at all, with every early return, and leaves a failed stream failing |
| `RtpHandling.RtpHandler.ReadAudioSample` | src/service/RtpHandler.cpp:283-347 | one call hands one audio packet over: the sample, or metadata when the client keeps samples |
| `RtpHandling.VideoJobWellFormed` | src/service/RtpHandler.cpp:166-190 | every job a video read can produce has packet lengths adding up to its buffers, as the pipeline's invariants need |
| `RtpHandling.AudioJobWellFormed` | src/service/RtpHandler.cpp:298-341 | the same for an audio read |
| `Streaming.SlicerAgreesWithIndex` | src/service/RtpHandler.cpp:175-190 | the slicer's own offset is the index's file offset less the sample's, and the slice is the file range the index names |
| `Streaming.FirstRtpIsSliceZero` | src/service/RtpHandler.cpp:65-94 | the first packet found from its head alone is the first slice |
| `Streaming.EmittedStreamDeframes` | constants/Util.h:204-210 | in every reachable state a receiver parses the RTP bytes written into exactly the packets sent |
| `Socket.MixedStreamIsReadBack` | src/service/Session.cpp:582-586 | with RTSP answers written in between on the same socket, a client reads back every packet and every answer, in order |
| `Socket.SocketIsReadBack` | src/service/Session.cpp:582-658 | any sequence of valid packets and messages is read back from its concatenation |
| `Socket.RefusalIsMessage` | src/service/RtspHandler.cpp:616-627 | a refusal ends at its first empty line and does not look like a packet |
| `Socket.TeardownIsMessage` | src/service/RtspHandler.cpp:607-614 | so does a teardown answer |
| `Streaming.FileSampleHasUnits` | src/service/RtpHandler.cpp:175-190 | a sample whose indexed packets are valid units is cut into valid units |
| `Streaming.MetaSampleHasUnit` | src/service/RtpHandler.cpp:146-164 | a metadata sample is one valid unit |
| `Streaming.VideoJobBytes` | src/service/RtpHandler.cpp:144-257 | a video read adds at most its two samples to the budget, or 110 bytes of metadata for a view smaller than that |
| `Streaming.AudioJobBytes` | src/service/RtpHandler.cpp:283-347 | an audio read adds at most its sample, or 110 bytes of metadata |
| `Streaming.ReadersStayInBudget` | src/service/Session.cpp:354-398 | in every reachable state, with every job begun by some read of the index, by however many readers: the bytes held are exact, never negative, and below 5 MiB plus the largest front and rear sample or audio sample |
| `Streaming.EachViewOnce` | src/service/RtpHandler.cpp:136-257 | each view of a read sample gives exactly one of its metadata, its file region, or (rear only) nothing, as the lists and the P-frame rule say |
| `Reads.VideoReadCases` | src/service/RtpHandler.cpp:96-262 | a video read sends something exactly when the camera is ready and the front view is listed or its file range is there; the rear view goes with it exactly when it is listed, or is due (switching, P frames on, last GOP, or first two of a GOP) and its range is there |
| `Reads.VideoReadContents` | src/service/RtpHandler.cpp:136-257 | a listed view goes as one packet on channel 0 (front) or 4 (rear) that decodes to its camera, view, frame type and its own sample number; any other view as its own file range, cut at its own packet lengths |
| `Reads.ListedIsAnnounced` | src/util/HybridSampleMeta.cpp:15-53 | sample n of a listed view decodes to number n with "I" at multiples of the GOP and "P" elsewhere |
| `Reads.RearIsSentIff` | src/service/RtpHandler.cpp:215-228 | the exact condition for the rear view, camera switching included |
| `Reads.StreamAfterRead` | src/service/RtpHandler.cpp:166-172 | a read changes one thing only: a view's file that lacks the range it was asked for fails, for good; every other file is as before |
| `Reads.AudioReadCases` | src/service/RtpHandler.cpp:283-347 | with an empty map exactly the bytes from the sample's offset on, or nothing when they cannot be read; with a map one packet on channel 1 that decodes to the sample's number |
| `Reads.AudioStreamAfterRead` | src/service/RtpHandler.cpp:296-309 | the audio file fails, for good, exactly when it was open, was read and lacks the range |
| `Streaming.RearPrefixIff` | src/service/RtpHandler.cpp:215-228 | over the jobs of all samples with P frames off, no rear P frame is written without its predecessor exactly if the sample count is below one GOP or leaves at most 2 modulo the GOP |
| `Streaming.RearFrameWithoutPredecessor` | src/service/RtpHandler.cpp:215-228 | 33 samples in GOPs of 30, on files that hold them: rear sample 3 is written and sample 2 is not |
| `Streaming.RearSentShape` | src/service/RtpHandler.cpp:215-228 | with a GOP dividing the count, every sample's job is written, with a rear view for the first two samples of each GOP and all of the last |
| `Streaming.RegionsAreContiguous` | src/service/RtpHandler.cpp:166-170 | the regions read for a run of samples are one contiguous file range |
| `Streaming.RunBufs` | src/service/StreamHandler.cpp:188-246 | the buffers of any list of samples read, whatever the settings and lists: per sample the front view as metadata or file region, then the rear view as metadata, file region or nothing |
| `Playback.PlayAllKeeps` | src/service/StreamHandler.cpp:188-246 | in the machine of the video reader, the audio reader and the pipeline, the video jobs begun are at every point those of the video samples read so far, and the audio jobs those of the audio samples, in the order of reading |
| `Playback.PlayedRunIsOnWire` | src/service/Session.cpp:354-369 | play from any sample, with any settings and lists, audio in between, pauses, resumes that move the cursors and any interleaving: once drained, the video bytes written are view by view what each sample read calls for, in the order of reading |
| `Playback.FullStreamingWritesTheFiles` | src/service/Session.cpp:354-369 | with P frames on and no lists these are per sample read the front then the rear file region, and when no resume moved the cursor the front regions are one contiguous file range |
| `Playback.FullStreamingWritesTheAudio` | src/service/Session.cpp:363-368 | with no lists, once drained, the audio bytes written are the file ranges of the audio samples read, in that order |
| `Playback.FullStreamingWritesOneAudioRange` | src/server/file/ContentFileMeta.cpp:283-299 | with the index the audio loader builds, of a file below 2^31 bytes, and no resume that moved the cursor, they are one range of the audio file |
| `Playback.AudioRangesAreContiguous` | src/server/file/ContentFileMeta.cpp:283-299 | the ranges that index names stand back to back |
| `Playback.HybridAudioIsAnnounced` | src/service/RtpHandler.cpp:322-341 | with lists, the i-th audio job is one packet on channel 1 that decodes to the number of the i-th audio sample read |
| `Playback.StraightPlay` | src/service/StreamHandler.cpp:188-295 | without a resume both readers read one sample after the other from their cursors on |
| `Reading.ResumedPlayWritesEverySample` | src/service/RtspHandler.cpp:186-213 | the client pauses and resumes as often as it likes, each time reporting samples it was sent, with audio, sending and reclaiming interleaved in any way: once both readers are at their end and the pipeline has drained, every sample of both ranges was read, none was jumped over, and the video bytes written are what the samples read call for |
| `Reading.PlayMovesCursor` | src/service/StreamHandler.cpp:188-295 | every event of a play moves the two cursors as the cursor machine says, so that what is proved of it holds of plays |
| `Playback.TasksArePlayed` | src/service/Session.cpp:354-369 | a video task, an audio task with its reclaiming, and a pause or resume lead from a state of a play to a state of a play |
| `Playback.ResumeIsPlayed` | src/service/RtspHandler.cpp:186-213 | so does a resume, whatever samples of the range it reports |
| `Interleaved.DeframeRecoversUnits` | constants/Util.h:204-210 | parsing concatenated `$`, channel, length, payload units gives back the units |
| `HybridMeta.HybridTable.ParseHybridVideoSampleMetaDataForDandS` | src/service/RtspHandler.cpp:936-967 | from the text of a list: records its samples one by one, up to a number that cannot be read, which throws |
| `HybridMeta.HybridTable.RecordFields` | src/service/RtspHandler.cpp:939-967 | the same over the split fields, for any integer parser |
| `HybridMeta.HybridTable.RecordSample` | src/service/RtspHandler.cpp:942-966 | the nested maps are created as needed and one entry is set unless it is there |
| `HybridMeta.NotTxRoundTrip` | src/service/RtspHandler.cpp:939-944 | a printed list of 32-bit numbers is read back without an exception, and one cut short by an unreadable field is read up to that field and throws |
| `HybridMeta.FoundIffListed` | constants/Util.h:303-320 | after any sequence of lists, the lookup with the key rebuilt at read time succeeds exactly for the triples that were listed |
| `HybridMeta.ViewKeyInjective` | src/service/RtspHandler.cpp:951-957 | the printed view number and frame type determine both |
| `HybridMeta.RecordLookup` | src/service/RtspHandler.cpp:942-966 | one entry changes the answer for its own triple alone, and an entry already there not at all |
| `HybridMeta.RecordChannelInfo` | src/util/HybridSampleMeta.cpp:41-47 | `$`, the channel and the length's two bytes, and nothing else changed |
| `HybridMeta.RecordPayLoad` | src/util/HybridSampleMeta.cpp:49-53 | the text's bytes after an unchanged head |
| `HybridMeta.GetHybridMetaBinary` | src/util/HybridSampleMeta.cpp:15-26 | the packet is its head and then its text |
| `HybridMeta.MetaBinaryIsValidUnit` | src/util/HybridSampleMeta.cpp:15-53 | whatever the field values, the payload fits the 16-bit length and the packet is a valid unit |
| `HybridMeta.MetaRoundTrip` | src/util/HybridSampleMeta.cpp:28-39 | every field is recovered from the packet's bytes |
| `Decimal.IntRoundTrip` | src/util/HybridSampleMeta.cpp:28-39 | a printed integer is read back |
| `Decimal.PrintedIsCanonical` | src/util/HybridSampleMeta.cpp:28-39 | a printed integer has a minus sign exactly if it is negative, and no zero in front of another digit |
| `Decimal.StoIRoundTrip` | src/service/RtspHandler.cpp:649-651 | every printed 32-bit number is read back by the integer parser |
| `Decimal.StoIOfPrinted` | src/service/RtspHandler.cpp:649-651 | a printed number followed by anything but a digit is read back exactly if it fits 32 bits, and throws otherwise |
| `Decimal.StoIOfSpaced` | src/service/RtspHandler.cpp:649-651 | leading white space and a plus sign change nothing |
| `Decimal.StoIWithoutDigit` | src/service/RtspHandler.cpp:649-651 | a text without a digit cannot be read |
| `Reading.PauseResumeLosesNothing` | src/service/RtspHandler.cpp:186-213 | across any pauses and truthful resumes no read skips an unread sample, and at the end every sample of the range was read |
| `Reading.ResumeCoversIff` | src/service/RtspHandler.cpp:194-205 | a resume leaves nothing unread between the start and the cursor exactly if the reported number is below one past the highest sample read |
| `Reading.CursorCases` | src/service/StreamHandler.cpp:196-239 | what a tick, a pause and a resume do to the cursor, case by case |
| `Reading.ResumeAheadLeavesGap` | src/service/RtspHandler.cpp:194-205 | paused after samples 0 to 4, a report of 9 resumes at 10 and sample 5 is not read |
| `Reading.LogRisesByOne` | src/service/StreamHandler.cpp:196-239 | between resumes the samples read are consecutive from the cursor on |
| `Reading.TicksFinish` | src/service/StreamHandler.cpp:196-239 | end + 1 - cur reads finish the range and the next tick reports it |
| `Reading.PlayReadsFromKeyToEnd` | src/service/StreamHandler.cpp:49-72 | a play request whose range holds a key reads exactly the samples from the first key at or after its start to its rounded end |
| `Reading.AudioPlayRange` | src/service/StreamHandler.cpp:49-72 | the audio range starts and ends at the samples nearest to its times; outside the play time at the last key and the last sample |
| `Reading.PlayWithoutKeyReadsNothing` | src/service/StreamHandler.cpp:49-72 | from 31 to 50 in GOPs of 30 the reader reports the end and has read nothing |
| `Reading.StreamHandler.InitUserRequestingPlaytime` | src/service/StreamHandler.cpp:49-58 | sets start and end of both streams from a range in microseconds and both cursors to their starts; a new session's player then stands at its beginning |
| `Reading.StreamHandler.GetNextVideoSample` | src/service/StreamHandler.cpp:188-246 | reads the front entry and the rear entry at the cursor from the lists of the camera through the pipeline as one job and advances, or reports the end, or throws exactly when one of the lists does not hold it, changing nothing; it is a video tick of the playing machine |
| `Reading.StreamHandler.GetNextAudioSample` | src/service/StreamHandler.cpp:248-295 | the same for the audio stream: the offset and the length of the entry at the cursor; it is an audio tick of the playing machine |
| `Reading.StreamHandler.VideoSampleReadingTask` | src/service/Session.cpp:354-358 | one gated tick of the reader, with the entries of the camera asked for; a task of the playing machine; every job begun is a read of the index, and the bytes held stay below 5 MiB plus the largest read |
| `Reading.StreamHandler.AudioSampleReadingTask` | src/service/Session.cpp:363-368 | the same for audio, after which the front of the owning queue has unsent packets |
| `Reading.StreamHandler.StartPlayForCamSwitching` | src/service/Session.cpp:384-389 | the burst reads 25 consecutive samples, fewer only when paused, at the end of the range, with the budget used up or after an exception; 25 video tasks of the playing machine; the bytes held stay below 5 MiB plus the largest read |
| `Reading.HandlerWritesTheFiles` | src/service/StreamHandler.cpp:188-246 | a stream handler whose tasks played a title with P frames on and no lists has, once drained, written the front then the rear file region of each sample in its log |
| `Reading.JobStaysReachable` | src/service/RtpHandler.cpp:144-257 | any read taken to its end keeps the pipeline reachable and adds exactly its job |
| `Reading.StreamHandler.ResumeFromPause` | src/service/RtspHandler.cpp:186-213 | a resume moves both cursors after the reported samples and stores the packet count, only when paused, and always unpauses; it is a resume of the playing machine |
| `Reading.StreamHandler.PausePlay` | src/service/RtspHandler.cpp:330-338 | pauses, and moves nothing; a second pause changes nothing |
| `Seek.KeySeekBounds` | src/service/StreamHandler.cpp:465-493 | NEXT is the least key at or after the rounded sample, PREVIOUS the greatest at or before it |
| `Seek.KeySeekNearest` | src/service/StreamHandler.cpp:485-489 | NEAREST is a key within (gop + 1) / 2, and the nearest one except exactly in the middle of an odd GOP |
| `Seek.NearestTakesTheFarther` | src/service/StreamHandler.cpp:485-489 | sample 1 of a GOP of 3 seeks to 3 though 0 is nearer |
| `Seek.NextKeyInRangeIff` | src/service/StreamHandler.cpp:480-492 | NEXT is within the media exactly if the rounded sample is not past the last key |
| `Seek.NextKeyBeyondTheMedia` | src/service/StreamHandler.cpp:480-492 | 45 samples in GOPs of 30 and a time rounding to 40: NEXT is 60 |
| `Seek.NextKeyMonotone` | src/service/StreamHandler.cpp:480-492 | a later time never seeks to an earlier key |
| `Seek.OutOfRangeSeeksToLastKey` | src/service/StreamHandler.cpp:468-475 | times outside the play time give the greatest key of the media |
| `Seek.AudioSeekIsNearest` | src/service/StreamHandler.cpp:479-493 | inside the play time an audio seek gives the sample nearest to the time, whatever the way |
| `Seek.RangeEnd` | src/service/StreamHandler.cpp:495-504 | the end of a range is the nearest sample, or the last of the media when the time is outside the play time |
| `Seek.RoundedIsNearest` | src/service/StreamHandler.cpp:506-513 | rounding is to the nearest sample, up in the middle |
| `Seek.PlayRangeIff` | src/service/StreamHandler.cpp:56-57 | a play range holds a sample exactly if some key lies between its rounded ends |
| `Seek.TimeIndexRoundTrip` | src/service/StreamHandler.cpp:610-612 | the index of the k-th timestamp is k |
| `Seek.PresentationTimesAgree` | src/service/StreamHandler.cpp:591-604 | the two presentation times of the k-th timestamp's sample agree, overflow included |
| `Seek.PresentationDrifts` | src/service/StreamHandler.cpp:576-604 | the presentation time of sample k is k truncated frame durations plus an exact drift |
| `Seek.SampleOfPresentationIff` | src/service/StreamHandler.cpp:506-513 | rounding the presentation time of sample k gives k exactly while the drift is under half a frame |
| `Seek.SampleOfPresentation` | src/service/StreamHandler.cpp:506-513 | in particular for every k up to half the frame duration |
| `Seek.FirstDriftedSample` | src/service/StreamHandler.cpp:576-604 | at 3001 ticks a frame this holds for every sample before 37512 and fails there |
| `Framing.ChunkingDoesNotMatter` | src/service/Session.cpp:688-717 | any two ways of cutting the same bytes into reads handle the same requests with the same answers, end in the same handler state, and leave the same unread text while the session lives |
| `Framing.StreamIsServed` | src/service/Session.cpp:688-717 | the requests handled are the first of the stream's complete requests, all of them unless the last answer is the first that stops the session; the answers and the handler are those of handling just these requests one by one; a live session has handled or kept every byte and holds no full delimiter |
| `Framing.DrainAppend` | src/service/Session.cpp:690-715 | text that arrives later could as well have been there from the start |
| `Framing.RequestsEndOnce` | src/service/Session.cpp:691-694 | every request ends with its first delimiter |
| `Framing.MessagesAreRecovered` | src/service/Session.cpp:691-694 | whole messages followed by an unfinished one are cut into just those messages |
| `Rtsp.RtspSession.AsyncReceive` | src/service/Session.cpp:688-717 | one completed read: every complete request handled in turn until none is left or an answer stops the session |
| `Rtsp.ScanAnswer` | src/service/Session.cpp:700-711 | the line-by-line scan of an answer |
| `Rtsp.StopsIff` | src/service/Session.cpp:704-711 | scanning line by line finds a stop exactly if the whole answer holds "Teardown:" or "Error:" |
| `Rtsp.RefusalStops` | src/service/RtspHandler.cpp:616-627 | every refusal, whatever its status, ends the session |
| `Rtsp.TeardownStops` | src/service/RtspHandler.cpp:607-614 | the teardown answer ends the session |
| `Rtsp.TeardownIsLast` | src/service/RtspHandler.cpp:339-343 | an accepted teardown stops the session |
| `Rtsp.RtspHandler.HandleRtspRequest` | src/service/RtspHandler.cpp:33-87 | the method list, the missing, unreadable or wrong number, and acceptance, each with its answer and new state |
| `Rtsp.AcceptedInSequence` | src/service/RtspHandler.cpp:44-87 | over a whole connection accepted requests are numbered 0, 1, 2, ..., and are all the requests with a readable number, in order, but perhaps the last of a stopped session |
| `Rtsp.FindCSeqInLines` | src/service/RtspHandler.cpp:646-655 | -1 when no line holds "CSeq", and else the value of the first line that does, wherever it stands, or none when reading it throws |
| `Rtsp.FirstCSeqLine` | src/service/RtspHandler.cpp:646-655 | for every k: if line k is the first that holds "CSeq", its value is the answer |
| `RequestText.ConformingIsAcceptedIff` | src/service/RtspHandler.cpp:33-87 | a request text of one of the seven methods, CRLF lines without "CSeq", a "CSeq: n" line, more lines and an empty line is accepted exactly when n is the number of requests accepted so far |
| `RequestText.InSequenceIsAnswered` | src/service/RtspHandler.cpp:33-87 | the next request in sequence gets the teardown answer or its method's own, as spelled out |
| `RequestText.OtherMethodIsNotAllowed` | src/service/RtspHandler.cpp:36-42 | any other method gets the 405 answer, as spelled out, and changes nothing |
| `RequestText.OutOfSequenceIsBad` | src/service/RtspHandler.cpp:52-57 | a conforming request with any other number gets the 400 answer, as spelled out, and changes nothing |
| `RequestText.UnnumberedIsBad` | src/service/RtspHandler.cpp:45-51 | so does a request without a "CSeq" line |
| `RequestText.UnreadableIsEchoed` | src/service/RtspHandler.cpp:646-655 | a request whose first "CSeq" line cannot be read comes back as it was sent |
| `RequestText.ConversationIsServed` | src/service/Session.cpp:688-717 | a client that sends conforming requests numbered from 0 has, however its bytes are cut into reads, every one accepted and answered in order, and the session goes on with nothing left over |
| `RequestText.ConversationIsCut` | src/service/Session.cpp:691-694 | the bytes of such a conversation are cut into just its requests |
| `Rtsp.HeaderNumberRoundTrip` | src/service/RtspHandler.cpp:649-651 | a printed 32-bit number after a header name, a colon and a blank is read back, whatever text without a colon follows its digits |
| `Rtsp.SplitToVecByStringForRtspMsg` | constants/Util.h:137-159 | the non-empty lines of a message |
| `Text.SplitToVecByString` | constants/Util.h:119-135 | the pieces between occurrences of the delimiter |
| `Text.JoinOfSplit` | constants/Util.h:119-135 | splitting loses nothing: joining the pieces gives the text |
| `Text.PiecesHoldNoDelimiter` | constants/Util.h:119-135 | no piece holds a delimiter |
| `Text.NeedleSurvivesSplit` | constants/Util.h:137-159 | a needle sharing no character with the delimiter is in some piece exactly if it is in the text |
| `Text.SplitOfJoin` | constants/Util.h:119-135 | splitting a text that spells pieces with delimiters between them gives the pieces, when none holds the delimiter's first character |
| `Text.TrimmedBetweenBlanks` | constants/Util.h:161-167 | trimming removes just the blanks on both sides of a text that neither starts nor ends with one |
| `Text.SplitToVecBySingleChar` | constants/Util.h:103-117 | the pieces std::getline leaves |
| `Text.GetlineDropsEmptyEnd` | constants/Util.h:103-117 | the same pieces as the other split, less an empty last one |
| `Text.GetlineOfJoinIff` | constants/Util.h:103-117 | splitting undoes joining exactly if the last piece is not empty |
| `Sntp.WriteTimeStamp` | src/server/SntpRefTimeProvider.cpp:152-170 | exactly eight bytes change, to the encoded time |
| `Sntp.TimeStampRoundTrip` | src/server/SntpRefTimeProvider.cpp:152-190 | a time not before 1970 is read back exactly or a millisecond early, and exactly if and only if it is a multiple of 125 ms or the random byte exceeds the fraction's low byte |
| `Sntp.TimeStampRoundTripIff` | src/server/SntpRefTimeProvider.cpp:152-190 | the time or a millisecond less is read back exactly for times not before 1970 and whole seconds |
| `Sntp.EpochIsRead` | src/server/SntpRefTimeProvider.cpp:152-190 | the seconds from 1900 to 1970 with the fraction one half, byte by byte, are read as 500 ms after 1970 |
| `Sntp.NegativeTimeStamp` | src/server/SntpRefTimeProvider.cpp:152-190 | any other time before 1970 comes back 1000 or 999 ms late |
| `Sntp.LastMillisecondOf1969` | src/server/SntpRefTimeProvider.cpp:152-190 | the last millisecond of 1969 comes back more than 900 ms after 1970 |
| `Sntp.ClockOffsetBound` | src/server/SntpRefTimeProvider.cpp:98-139 | for any skew and non-negative delays in whole milliseconds the offset is the skew to within half the round trip plus 1 ms |
| `Sntp.ClockOffsetBoundNs` | src/server/SntpRefTimeProvider.cpp:98-139 | for any skew and delays in nanoseconds, with every truncation on both sides, to within half the round trip plus 2.5 ms |
| `Sntp.ServerTimeIsRead` | src/server/SntpRefTimeProvider.cpp:172-190 | a server time written to the last bit of the fraction is read rounded down to the millisecond, or one less |
| `Sntp.SntpRefTimeProvider.OnReadSntpTime` | src/server/SntpRefTimeProvider.cpp:192-216 | an unset clock takes the measurement and the tick count; a running one moves to the midpoint when the measurement is within 35 ms, and else does not change |
| `Sntp.SyncMovesLittle` | src/server/SntpRefTimeProvider.cpp:192-216 | a sync moves a running reference by at most 18 ms, and not at all for a rejected measurement |
| `Sntp.EverySyncMovesLittle` | src/server/SntpRefTimeProvider.cpp:192-216 | so does every sync of a run after the first |
| `Sntp.RunHalves` | src/server/SntpRefTimeProvider.cpp:192-216 | under consistent measurements every sync is accepted and halves the residual, rounding up |
| `Sntp.HalvedShrinks` | src/server/SntpRefTimeProvider.cpp:205-210 | the residual strictly shrinks until it is 0 or 1 |
| `Sntp.SixSyncsConverge` | src/server/SntpRefTimeProvider.cpp:192-216 | from six consistent syncs on the residual is 0 or 1 ms |
| `Sntp.FirstSyncSets` | src/server/SntpRefTimeProvider.cpp:192-216 | the first sync of a new provider sets the reference to its measurement |
| `Sntp.EverySyncFromStart` | src/server/SntpRefTimeProvider.cpp:192-216 | in any run of a new provider every sync after the first moves the reference by at most 18 ms, and not at all for a measurement more than 35 ms off |
| `Sntp.SixSyncsFromStart` | src/server/SntpRefTimeProvider.cpp:192-216 | a new provider whose first measurement is off by at most 35 ms is within 0 or 1 ms of the measurements after six consistent ones |

## Left out

- Teardown and what follows it: `onTeardown` zeroes the budget and `clearRtpQueue` replaces the queue, so the accounting is not meant to hold past it; the isToreDown flag is therefore absent.
- The order of a write, the `refCount` decrement and the later reads of the packet's length in `transmitRtp`: one step here; a reclaim between the decrement and those reads is not modelled.
- Sockets, threads, timers and the lock-free queue: the socket is a byte log, the strand one task at a time, the queue an unbounded FIFO with one consumer; write errors are ignored, as the source does.
- Socket.MixedStreamIsReadBack: each write is taken whole, though two threads of the source write to one socket; a message body, as DESCRIBE's, is not modelled, and other methods' answers are assumed to end at their first empty line.
- Streaming.EmittedStreamDeframes: of the RTP bytes alone, without the answers that share the socket.
- Sample and packet objects on the heap: a sample is identified by its creation number, `refCount` is a table by that number, and a raw pointer is the packet value whose object must still be in the owning queue.
- SessionState.Session.TransmitRtp: the branch for a null pointer and for a length of -1 is absent, since no packet is made with either.
- RtpHandling.RtpHandler.EnqueueSample: the source repeats this code for the front view, the rear view and audio.
- Packet lengths below -1 in a stored index: the index is modelled for them, the cutting is not.
- SampleIndex.GetSizes: metadata of odd length, which the source reads past the end of, is outside the model.
- SampleIndex.LoadRtpMemberVideoMetaData: the sum of one sample's lengths is unbounded here and 32-bit in the source; a GOP that is not positive divides by zero in the source; the closing log of the smallest and largest size, which reads the first element of an empty list when no sample has a size, is absent.
- Reading.StreamHandler.GetNextVideoSample: the cameras' lists are a parameter; where an exception goes after it leaves the task is not modelled.
- Reading.StreamHandler.VideoSampleReadingTask, and the audio task and the burst beside it: stated between two tx steps, as whole tasks of the playing machine; the bound itself holds at every step by `Streaming.ReadersStayInBudget`.
- Playback.PlayedRunIsOnWire and the results beside it: from a new session on, within the range of one play request; a second play request on the same session is not followed.
- Reading.PauseResumeLosesNothing: for reports from one below the start to the highest sample read; a lower report, such as -2, moves the cursor below the lists, and the next read throws.
- Reading.StreamHandler.InitUserRequestingPlaytime: conversion of seconds from `float`, and the first packet's timestamp and sequence number, are left out.
- Camera switching moves the cursor by other rules; those jumps are not modelled, only the burst of reads that follows.
- Seek.PresentationDrifts, Seek.SampleOfPresentationIff and Seek.SampleOfPresentation: stated while the index times the frame count fits the source's 32-bit product; signed overflow is taken to wrap.
- Floating point: `std::round` of a quotient of non-negative times is rounding half up of the exact quotient, and half of a clock difference is exact.
- Rtsp.FindCSeqInLines: a CSeq line without a value, past whose end the source reads, counts as throwing.
- What each RTSP method does after the CSeq gate, and the text of its normal answer, is the function `Application`, except for teardown; the 500 answers when a session object is already gone are absent.
- The session-id gate: the flag it tests is set only on a path that has already returned, so it never closes.
- HybridMeta.HybridTable.ParseHybridVideoSampleMetaDataForDandS: a list of fewer than two fields, past whose end the source reads, counts as throwing.
- The clock is read once per sync; the source reads it twice, for the comparison and for the store.
- Sntp.EverySyncMovesLittle, Sntp.RunHalves and Sntp.SixSyncsConverge: for times after 1970 and a local clock that does not run backwards, as a reference of -1 reads as unset.
- Response building for the other methods, logging, bitrate reports, directory scanning and server bookkeeping add no behaviour to these guarantees.
