/** The session's queues and counters as mutable state; one method per source method. */
module SessionState {
  import opened Common
  import opened Pipeline
  import opened Delivery

  class Session {
    var refCount: seq<int>              // Sample.refCount, by sample identity
    var rtpMemoryQueue: seq<Packet>
    var rtpQueue: seq<Packet>
    var allocatedBytesForSample: int
    var isPaused: bool
    var sentBitsSize: int
    var socket: seq<byte>               // the RTP bytes written to it
    ghost var toCreate: seq<Sample>     // what the running reading job has still to do
    ghost var toPush: seq<Packet>
    ghost var handoff: Option<Packet>
    ghost var jobs: seq<seq<Sample>>
    ghost var samples: seq<Sample>
    ghost var sentLog: seq<Packet>

    /** The pipeline state between two steps of the tx thread. */
    ghost function Abs(): State
      reads this
    {
      State(refCount, rtpMemoryQueue, rtpQueue, None, allocatedBytesForSample, isPaused, socket,
            toCreate, toPush, handoff, jobs, samples, sentLog)
    }

    constructor ()
      ensures Abs() == Init
    {
      refCount, rtpMemoryQueue, rtpQueue := [], [], [];
      allocatedBytesForSample, isPaused, sentBitsSize, socket := 0, false, 0, [];
      toCreate, toPush, handoff, jobs, samples, sentLog := [], [], None, [], [], [];
    }

    method IsNewSampleAllocatable() returns (allowed: bool)
      ensures allowed <==> allocatedBytesForSample < 5 * 1024 * 1024
    {
      if allocatedBytesForSample < MAX_CLIENT_BUFFER_SIZE {
        return true;
      }
      return false;
    }

    method UpdatePauseStatus(paused: bool)
      requires StrandIdle(Abs())
      modifies this
      ensures Abs() == Apply(old(Abs()), SetPaused(paused)) && sentBitsSize == old(sentBitsSize)
      ensures isPaused == paused
    {
      isPaused := paused;
    }

    /** Marks the start of a reading job; its samples are those the reader will make. */
    ghost method BeginReading(job: seq<Sample>)
      requires Enabled(Abs(), BeginJob(job))
      modifies this
      ensures Abs() == Apply(old(Abs()), BeginJob(job)) && sentBitsSize == old(sentBitsSize)
    {
      toCreate, jobs := job, jobs + [job];
    }

    /** Allocates a sample and sets its refCount to its packet count. */
    method NewSample(sample: Sample) returns (sid: nat)
      requires Enabled(Abs(), CreateSample) && sample == toCreate[0] && |refCount| == |samples|
      modifies this
      ensures Abs() == Apply(old(Abs()), CreateSample) && sentBitsSize == old(sentBitsSize)
      ensures sid == old(|samples|)
    {
      sid := |refCount|;
      refCount := refCount + [|sample.lens|];
      toPush := Cut(sid, sample, sample.lens, 0);
      toCreate, samples := toCreate[1..], samples + [sample];
    }

    method EnqueueRtpForMemoryMgmt(rtp: Packet)
      requires Enabled(Abs(), PushMemory) && rtp == toPush[0]
      modifies this
      ensures Abs() == Apply(old(Abs()), PushMemory) && sentBitsSize == old(sentBitsSize)
    {
      allocatedBytesForSample := allocatedBytesForSample + rtp.length;
      rtpMemoryQueue := rtpMemoryQueue + [rtp];
      toPush, handoff := toPush[1..], Some(rtp);
    }

    method EnqueueRtpInfo(rtp: Packet)
      requires Enabled(Abs(), PushQueue) && handoff == Some(rtp)
      modifies this
      ensures Abs() == Apply(old(Abs()), PushQueue) && sentBitsSize == old(sentBitsSize)
    {
      rtpQueue := rtpQueue + [rtp];
      handoff := None;
    }

    /**
     * One round of the tx thread: pop, write the slice, account for it.  The
     * queued pointer must be live, which TransmitIsSafe shows of every reachable state.
     */
    method TransmitRtp()
      requires rtpQueue != [] ==> Live(Abs(), rtpQueue[0])
      modifies this
      ensures old(rtpQueue) == [] ==> Abs() == old(Abs()) && sentBitsSize == old(sentBitsSize)
      ensures old(rtpQueue) != [] ==>
        && Abs() == Transmit(old(Abs()))
        && sentBitsSize == ToInt32(old(sentBitsSize) + ToInt32(8 * old(rtpQueue)[0].length))
    {
      if rtpQueue == [] {
        return;
      }
      var rtp := rtpQueue[0];
      rtpQueue := rtpQueue[1..];
      var slice: seq<byte>;
      if rtp.sample.media == Video {
        slice := rtp.sample.buf[rtp.offset..rtp.offset + rtp.length];
      } else {
        slice := rtp.sample.buf[..rtp.length];
      }
      socket := socket + slice;
      refCount := refCount[rtp.sid := refCount[rtp.sid] - 1];
      allocatedBytesForSample := allocatedBytesForSample - rtp.length;
      sentBitsSize := ToInt32(sentBitsSize + ToInt32(8 * rtp.length));
      sentLog := sentLog + [rtp];
    }

    /** One round of the tx loop: an empty queue and a pause hold it back. */
    method TxRound()
      requires !isPaused && rtpQueue != [] ==> Live(Abs(), rtpQueue[0])
      modifies this
      ensures old(isPaused) || old(rtpQueue) == [] ==> Abs() == old(Abs()) && sentBitsSize == old(sentBitsSize)
      ensures !old(isPaused) && old(rtpQueue) != [] ==>
        && Abs() == Transmit(old(Abs()))
        && socket == old(socket) + old(rtpQueue)[0].Payload() && rtpQueue == old(rtpQueue)[1..]
    {
      if rtpQueue == [] {
        return;
      }
      if !isPaused {
        TransmitRtp();
      }
    }

    /** Frees the packets of fully sent samples at the front of the owning queue. */
    method DeleteDanglingRtps()
      requires Reachable(Abs()) && StrandIdle(Abs())
      modifies this`rtpMemoryQueue
      ensures Abs() == ReclaimAll(old(Abs()))
      ensures forall p :: p in rtpMemoryQueue <==>
        p in old(rtpMemoryQueue) && p.sid < |refCount| && refCount[p.sid] > 0
    {
      ghost var owned := rtpMemoryQueue;
      ghost var k := DanglingPrefix(Abs());
      ghost var popped := 0;
      while true
        invariant popped <= k && rtpMemoryQueue == owned[popped..]
        decreases |rtpMemoryQueue|
      {
        if rtpMemoryQueue == [] {
          break;
        }
        var rtp := rtpMemoryQueue[0];
        assert rtp == owned[popped];
        if refCount[rtp.sid] == 0 {
          rtpMemoryQueue := rtpMemoryQueue[1..];
          popped := popped + 1;
        } else {
          break;
        }
      }
    }
  }

  /** In a reachable state the tx thread may transmit, and reaches a reachable state. */
  lemma TransmitIsSafe(s: State)
    requires Reachable(s) && s.inFlight == None && s.txQueue != []
    ensures Live(s, s.txQueue[0]) && Reachable(Transmit(s))
  {
    ReachableStep(s, Pop);
    PoppedPacketCanBeWritten(Apply(s, Pop));
    ReachableStep(Apply(s, Pop), WriteAndAccount);
    TransmitIsTwoSteps(s);
  }

  lemma DanglingPrefix(s: State) returns (k: nat)
    requires Reachable(s) && StrandIdle(s)
    ensures k <= |s.memQueue| && ReclaimAll(s) == s.(memQueue := s.memQueue[k..])
    ensures forall i :: 0 <= i < |s.memQueue| ==>
      s.memQueue[i].sid < |s.refCount| && (i < k <==> s.refCount[s.memQueue[i].sid] == 0)
    ensures forall i :: 0 <= i < |s.memQueue| ==> s.refCount[s.memQueue[i].sid] >= 0
    ensures forall p :: p in s.memQueue[k..] <==>
      p in s.memQueue && p.sid < |s.refCount| && s.refCount[p.sid] > 0
  {
    ReachableInv(s);
    k := ReclaimIsExact(s);
    forall p
      ensures p in s.memQueue[k..] <==> p in s.memQueue && p.sid < |s.refCount| && s.refCount[p.sid] > 0
    {
      RetainedIff(s, k, p);
    }
  }

  lemma RetainedIff(s: State, k: nat, p: Packet)
    requires Inv(s) && k <= |s.memQueue|
    requires forall i :: 0 <= i < |s.memQueue| ==>
      s.memQueue[i].sid < |s.refCount| && (i < k <==> s.refCount[s.memQueue[i].sid] == 0)
    ensures p in s.memQueue[k..] <==> p in s.memQueue && p.sid < |s.refCount| && s.refCount[p.sid] > 0
  {
    if p in s.memQueue {
      var i :| 0 <= i < |s.memQueue| && s.memQueue[i] == p;
      if i >= k { assert s.memQueue[k..][i - k] == p; }
      if p in s.memQueue[k..] {
        var j :| 0 <= j < |s.memQueue[k..]| && s.memQueue[k..][j] == p;
        assert s.memQueue[k + j] == p;
      }
    }
  }
}
