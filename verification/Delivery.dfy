/** What every run of the delivery pipeline guarantees. */
module Delivery {
  import opened Common
  import opened Pipeline

  // ------------------------------------------------------ safety of every run

  /** In every reachable state refCount is exact and no raw pointer dangles. */
  lemma RefCountExactAndNoDanglingPointer(s: State)
    requires Reachable(s)
    ensures |s.refCount| == |s.samples|
    ensures forall sid :: 0 <= sid < |s.refCount| ==> s.refCount[sid] == CountOf(Unsent(s), sid)
    ensures forall p :: p in Pending(s) ==> Live(s, p) && p.sample == s.samples[p.sid] && s.refCount[p.sid] > 0
  {
    ReachableInv(s);
    forall p | p in Pending(s)
      ensures Live(s, p) && p.sample == s.samples[p.sid] && s.refCount[p.sid] > 0
    {
      assert p in Unsent(s);
      assert p in s.sentLog + Unsent(s);
      PlanFacts(s.samples);
      CountZero(Unsent(s), p.sid);
    }
  }

  lemma ReachableInv(s: State)
    requires Reachable(s)
    ensures Inv(s)
  {
    var events :| WellFormedRun(events) && Exec(Init, events) == Some(s);
    InitInv();
    ExecKeepsInv(Init, events);
  }

  /** The tx thread is never stuck on a freed packet: what it popped it can write. */
  lemma PoppedPacketCanBeWritten(s: State)
    requires Reachable(s) && s.inFlight.Some?
    ensures Enabled(s, WriteAndAccount)
  {
    RefCountExactAndNoDanglingPointer(s);
    assert s.inFlight.value in Pending(s);
  }

  /** Reclaiming in a reachable state frees no packet that is still to be sent. */
  lemma ReclaimedPacketWasSent(s: State)
    requires Reachable(s) && Enabled(s, Reclaim)
    ensures s.memQueue[0] in s.sentLog && s.memQueue[0] !in Unsent(s)
  {
    ReachableInv(s);
    StepReclaim(s);
    var freed := |s.sentLog| + |Pending(s)| - |s.memQueue|;
    assert s.memQueue[0] == (s.sentLog[freed..] + Pending(s))[0];
    assert s.memQueue[0] !in Pending(s);
  }

  /** Byte budget: exact, never negative, and bounded by the buffer plus one job. */
  lemma ByteBudget(s: State, largest: nat)
    requires Reachable(s)
    requires forall job :: job in s.jobs ==> BufBytes(job) <= largest
    ensures 0 <= s.allocatedBytes == Bytes(Pending(s)) < 5 * 1024 * 1024 + largest
  {
    ReachableInv(s);
    MaxJobBound(s.jobs, largest);
  }

  lemma {:induction false} MaxJobBound(jobs: seq<seq<Sample>>, largest: nat)
    requires forall job :: job in jobs ==> BufBytes(job) <= largest
    ensures MaxJob(jobs) <= largest
  {
    if jobs != [] { MaxJobBound(jobs[..|jobs| - 1], largest); }
  }

  // --------------------------------------------- refinement of a direct write

  /** What the jobs begun so far would write if each buffer went straight out. */
  function DirectWrite(jobs: seq<seq<Sample>>): seq<byte>
  {
    Flatten(Bufs(Flatten(jobs)))
  }

  /** What is on the wire, followed by what is still held, is the direct write. */
  lemma WireRefinesDirectWrite(s: State)
    requires Reachable(s)
    ensures AllInBounds(Unsent(s))
    ensures s.wire + Payloads(Unsent(s)) + Flatten(Bufs(s.toCreate)) == DirectWrite(s.jobs)
    ensures s.wire <= DirectWrite(s.jobs)
  {
    ReachableInv(s);
    PlanTiles(s.samples);
    forall p | p in Unsent(s) ensures p.InBounds() {
      assert p in s.sentLog + Unsent(s);
    }
    PayloadsAppend(s.sentLog, Unsent(s));
    BufsAppend(s.samples, s.toCreate);
    FlattenAppend(Bufs(s.samples), Bufs(s.toCreate));
    PrefixOfThree(s.wire, Payloads(Unsent(s)), Flatten(Bufs(s.toCreate)));
  }

  lemma PrefixOfThree(a: seq<byte>, b: seq<byte>, c: seq<byte>)
    ensures a <= a + b + c
  {
    assert (a + b + c)[..|a|] == a;
  }

  /** Every packet reaches the wire once and in order: the sent log is a prefix of the plan. */
  lemma PacketsSentOnceInOrder(s: State)
    requires Reachable(s)
    ensures s.sentLog <= Plan(s.samples)
    ensures Plan(s.samples)[|s.sentLog|..] == Unsent(s)
  {
    ReachableInv(s);
  }

  ghost predicate Drained(s: State)
  {
    StrandIdle(s) && s.txQueue == [] && s.inFlight == None
  }

  /** The payload bytes of one medium only, in order. */
  function MediaPayloads(ps: seq<Packet>, m: Media): seq<byte>
    requires AllInBounds(ps)
  {
    if ps == [] then []
    else (if ps[0].sample.media == m then ps[0].Payload() else []) + MediaPayloads(ps[1..], m)
  }

  function MediaBufs(xs: seq<Sample>, m: Media): seq<seq<byte>>
  {
    if xs == [] then []
    else (if xs[0].media == m then [xs[0].buf] else []) + MediaBufs(xs[1..], m)
  }

  /** Once drained: everything was written, counters are zero, per medium too. */
  lemma DrainedWroteEverything(s: State, m: Media)
    requires Reachable(s) && Drained(s)
    ensures s.wire == DirectWrite(s.jobs) && s.allocatedBytes == 0
    ensures forall sid :: 0 <= sid < |s.refCount| ==> s.refCount[sid] == 0
    ensures AllInBounds(s.sentLog)
    ensures MediaPayloads(s.sentLog, m) == Flatten(MediaBufs(Flatten(s.jobs), m))
  {
    ReachableInv(s);
    WireRefinesDirectWrite(s);
    assert Unsent(s) == [] && Pending(s) == [];
    assert s.sentLog + Unsent(s) == s.sentLog;
    assert s.samples + s.toCreate == s.samples;
    MediaPlan(s.samples, m);
  }

  lemma {:induction false} MediaPayloadsAppend(a: seq<Packet>, b: seq<Packet>, m: Media)
    requires AllInBounds(a) && AllInBounds(b)
    ensures AllInBounds(a + b)
    ensures MediaPayloads(a + b, m) == MediaPayloads(a, m) + MediaPayloads(b, m)
  {
    if a == [] {
      NothingBefore(b);
    } else {
      TailOfAppend(a, b);
      MediaPayloadsAppend(a[1..], b, m);
      Associative(if a[0].sample.media == m then a[0].Payload() else [], MediaPayloads(a[1..], m), MediaPayloads(b, m));
    }
  }

  lemma TailOfAppend(a: seq<Packet>, b: seq<Packet>)
    requires a != [] && AllInBounds(a) && AllInBounds(b)
    ensures (a + b)[0] == a[0] && (a + b)[1..] == a[1..] + b && AllInBounds(a + b) && AllInBounds(a[1..])
  {
    PayloadsAppend(a, b);
  }

  lemma {:induction false} MediaBufsAppend(xs: seq<Sample>, ys: seq<Sample>, m: Media)
    ensures MediaBufs(xs + ys, m) == MediaBufs(xs, m) + MediaBufs(ys, m)
  {
    if xs == [] {
      assert xs + ys == ys;
    } else {
      assert (xs + ys)[1..] == xs[1..] + ys;
      MediaBufsAppend(xs[1..], ys, m);
    }
  }

  lemma {:induction false} MediaOfOneSample(ps: seq<Packet>, x: Sample, m: Media)
    requires AllInBounds(ps) && forall p :: p in ps ==> p.sample == x
    ensures MediaPayloads(ps, m) == if x.media == m then Payloads(ps) else []
  {
    if ps != [] { MediaOfOneSample(ps[1..], x, m); }
  }

  lemma {:induction false} MediaPlan(xs: seq<Sample>, m: Media)
    requires forall x :: x in xs ==> x.WellFormed()
    ensures AllInBounds(Plan(xs))
    ensures MediaPayloads(Plan(xs), m) == Flatten(MediaBufs(xs, m))
  {
    PlanFacts(xs);
    if xs != [] {
      var n := |xs| - 1;
      var x, cut := xs[n], Cut(n, xs[n], xs[n].lens, 0);
      MediaPlan(xs[..n], m);
      assert AllInBounds(cut) && MediaPayloads(cut, m) == if x.media == m then x.buf else [] by {
        assert x.WellFormed();
        CutFacts(n, x, x.lens, 0);
        CutTiles(n, x, x.lens, 0);
        MediaOfOneSample(cut, x, m);
      }
      MediaPayloadsAppend(Plan(xs[..n]), cut, m);
      MediaBufsSnoc(xs, m);
    }
  }

  lemma MediaBufsSnoc(xs: seq<Sample>, m: Media)
    requires xs != []
    ensures var n := |xs| - 1;
      Flatten(MediaBufs(xs, m)) == Flatten(MediaBufs(xs[..n], m)) + if xs[n].media == m then xs[n].buf else []
  {
    var n := |xs| - 1;
    var x := xs[n];
    assert xs == xs[..n] + [x];
    MediaBufsAppend(xs[..n], [x], m);
    assert MediaBufs([x], m) == if x.media == m then [x.buf] else [] by {
      assert [x][1..] == [];
    }
    if x.media == m {
      FlattenSnoc(MediaBufs(xs[..n], m), x.buf);
    } else {
      assert MediaBufs(xs, m) == MediaBufs(xs[..n], m);
    }
  }

  /** From any idle unpaused reachable state the tx thread alone can drain everything. */
  lemma {:induction false} CanAlwaysDrain(s: State) returns (events: seq<Event>)
    requires Reachable(s) && StrandIdle(s) && !s.paused
    ensures forall e :: e in events ==> e == Pop || e == WriteAndAccount
    ensures |events| == 2 * |s.txQueue| + |Slot(s.inFlight)|
    ensures Exec(s, events).Some? && Drained(Exec(s, events).value)
    ensures Exec(s, events).value.jobs == s.jobs && Exec(s, events).value.wire == DirectWrite(s.jobs)
    decreases 2 * |s.txQueue| + |Slot(s.inFlight)|
  {
    if s.inFlight == None && s.txQueue == [] {
      events := [];
      DrainedWroteEverything(s, Video);
    } else {
      var e := if s.inFlight.Some? then WriteAndAccount else Pop;
      if s.inFlight.Some? { PoppedPacketCanBeWritten(s); }
      ReachableStep(s, e);
      var rest := CanAlwaysDrain(Apply(s, e));
      events := [e] + rest;
      assert events[1..] == rest;
    }
  }

  /** While paused no job begins: the samples are those of the jobs already begun, whatever else goes on. */
  lemma {:induction false} PausedBeginsNothing(s: State, events: seq<Event>)
    requires s.paused && SetPaused(false) !in events && Exec(s, events).Some?
    ensures var t := Exec(s, events).value;
      t.paused && t.jobs == s.jobs && t.samples + t.toCreate == s.samples + s.toCreate
    decreases |events|
  {
    if events != [] {
      var e := events[0];
      if e == CreateSample { NextIsCreated(s); }
      PausedBeginsNothing(Apply(s, e), events[1..]);
    }
  }

  lemma NextIsCreated(s: State)
    requires Enabled(s, CreateSample)
    ensures var t := Apply(s, CreateSample); t.samples + t.toCreate == s.samples + s.toCreate
  {
  }

  lemma ReachableStep(s: State, e: Event)
    requires Reachable(s) && Enabled(s, e) && WellFormedEvent(e)
    ensures Reachable(Apply(s, e))
  {
    var events :| WellFormedRun(events) && Exec(Init, events) == Some(s);
    ExecAppend(Init, events, [e]);
    assert [e][1..] == [];
    assert Exec(Apply(s, e), []) == Some(Apply(s, e));
    assert WellFormedRun(events + [e]);
  }

  /** A job always runs to its end, leaving the tx side alone. */
  lemma {:induction false} StrandFinishes(s: State)
    requires Reachable(s)
    ensures var t := FinishStrand(s);
      && Reachable(t) && StrandIdle(t) && t.jobs == s.jobs
      && t.samples == s.samples + s.toCreate && t.wire == s.wire && t.sentLog == s.sentLog
      && t.paused == s.paused && t.inFlight == s.inFlight
    decreases |s.toCreate|, 2 * |s.toPush| + |Slot(s.handoff)|
  {
    if !StrandIdle(s) {
      var e := if s.handoff.Some? then PushQueue else if s.toPush != [] then PushMemory else CreateSample;
      ReachableStep(s, e);
      StrandFinishes(Apply(s, e));
      if e == CreateSample { assert s.samples + s.toCreate == s.samples + [s.toCreate[0]] + s.toCreate[1..]; }
    }
  }

  // ------------------------------------------------------- tight reclamation

  /** A whole call of deleteDanglingRtps with no tx step in between. */
  function ReclaimAll(s: State): State
    decreases |s.memQueue|
  {
    if FrontIsDangling(s) then ReclaimAll(s.(memQueue := s.memQueue[1..])) else s
  }

  lemma {:induction false} ReclaimAllDrops(s: State) returns (k: nat)
    ensures !FrontIsDangling(ReclaimAll(s))
    ensures k <= |s.memQueue| && ReclaimAll(s) == s.(memQueue := s.memQueue[k..])
    ensures forall i :: 0 <= i < k ==>
      s.memQueue[i].sid < |s.refCount| && s.refCount[s.memQueue[i].sid] == 0
    decreases |s.memQueue|
  {
    k := 0;
    if FrontIsDangling(s) {
      var j := ReclaimAllDrops(s.(memQueue := s.memQueue[1..]));
      k := j + 1;
    }
  }

  lemma {:induction false} ReclaimAllKeepsInv(s: State)
    requires Inv(s) && StrandIdle(s)
    ensures Inv(ReclaimAll(s))
    decreases |s.memQueue|
  {
    if FrontIsDangling(s) {
      StepReclaim(s);
      ReclaimAllKeepsInv(Apply(s, Reclaim));
    }
  }

  lemma {:induction false} PlanSorted(xs: seq<Sample>, i: nat, j: nat)
    requires forall x :: x in xs ==> x.WellFormed()
    requires i <= j < |Plan(xs)|
    ensures Plan(xs)[i].sid <= Plan(xs)[j].sid < |xs|
  {
    if xs != [] {
      var n := |xs| - 1;
      assert xs[n].WellFormed();
      CutFacts(n, xs[n], xs[n].lens, 0);
      PlanFacts(xs);
      PlanFacts(xs[..n]);
      assert Plan(xs)[j] in Plan(xs);
      if j < |Plan(xs[..n])| {
        PlanSorted(xs[..n], i, j);
      } else {
        assert Plan(xs)[j] == Cut(n, xs[n], xs[n].lens, 0)[j - |Plan(xs[..n])|];
        assert Plan(xs)[i] in Plan(xs);
      }
    }
  }

  /** FIFO order between a sent and an unsent packet is sample order. */
  lemma SentBeforeUnsent(s: State, p: Packet, q: Packet)
    requires Inv(s) && p in s.sentLog && q in Unsent(s)
    ensures p.sid <= q.sid
  {
    var i :| 0 <= i < |s.sentLog| && s.sentLog[i] == p;
    var j :| 0 <= j < |Unsent(s)| && Unsent(s)[j] == q;
    PlanSorted(s.samples, i, |s.sentLog| + j);
    assert (s.sentLog + Unsent(s))[i] == p && (s.sentLog + Unsent(s))[|s.sentLog| + j] == q;
  }

  /** rtpMemoryQueue is in sample order. */
  lemma MemQueueSorted(s: State, i: nat, j: nat)
    requires Inv(s) && i <= j < |s.memQueue|
    ensures s.memQueue[i].sid <= s.memQueue[j].sid < |s.samples|
  {
    var freed := |s.sentLog| + |Pending(s)| - |s.memQueue|;
    var plan := Plan(s.samples);
    assert forall k :: 0 <= k < |s.memQueue| ==> s.memQueue[k] == (s.sentLog + Unsent(s))[freed + k];
    PlanSorted(s.samples, freed + i, freed + j);
  }

  /**
   * A call removes exactly the packets of fully sent samples: none of those is
   * left behind, and everything left belongs to a sample with unsent packets.
   */
  lemma ReclaimIsExact(s: State) returns (k: nat)
    requires Reachable(s) && StrandIdle(s)
    ensures k <= |s.memQueue| && ReclaimAll(s) == s.(memQueue := s.memQueue[k..])
    ensures forall i :: 0 <= i < |s.memQueue| ==>
      s.memQueue[i].sid < |s.refCount| && (i < k <==> s.refCount[s.memQueue[i].sid] == 0)
  {
    ReachableInv(s);
    k := ReclaimAllDrops(s);
    ReclaimAllKeepsInv(s);
    var t := ReclaimAll(s);
    forall i | 0 <= i < |t.memQueue|
      ensures t.memQueue[i].sid < |t.refCount| && t.refCount[t.memQueue[i].sid] > 0
    {
      RetainedIsUnsent(t, i);
    }
    forall i | 0 <= i < |s.memQueue|
      ensures s.memQueue[i].sid < |s.refCount| && (i < k <==> s.refCount[s.memQueue[i].sid] == 0)
    {
      if k <= i { assert s.memQueue[i] == t.memQueue[i - k]; }
    }
  }

  lemma RetainedIsUnsent(t: State, i: nat)
    requires Inv(t) && !FrontIsDangling(t) && i < |t.memQueue|
    ensures t.memQueue[i].sid < |t.refCount| && t.refCount[t.memQueue[i].sid] > 0
  {
    var p, head := t.memQueue[i], t.memQueue[0];
    MemQueueSorted(t, 0, i);
    CountZero(Unsent(t), head.sid);
    var q :| q in Unsent(t) && q.sid == head.sid;
    CountZero(Unsent(t), p.sid);
    if p !in Unsent(t) {
      assert p in t.sentLog;
      SentBeforeUnsent(t, p, q);
    }
  }

  /** Bytes of the sample buffers kept alive by a queue of packets. */
  function HeldBytes(xs: seq<Sample>, ps: seq<Packet>): nat
  {
    if xs == [] then 0
    else
      var n := |xs| - 1;
      HeldBytes(xs[..n], ps) + if CountOf(ps, n) > 0 then |xs[n].buf| else 0
  }

  /** A sample's buffer is kept alive exactly while a packet of it is. */
  lemma HeldIff(xs: seq<Sample>, x: Sample, ps: seq<Packet>)
    ensures HeldBytes(xs + [x], ps)
      == HeldBytes(xs, ps) + if exists p :: p in ps && p.sid == |xs| then |x.buf| else 0
  {
    CountZero(ps, |xs|);
    assert (xs + [x])[..|xs|] == xs;
  }

  function BytesOf(ps: seq<Packet>, sid: nat): nat
  {
    if ps == [] then 0 else (if ps[0].sid == sid then ps[0].length else 0) + BytesOf(ps[1..], sid)
  }

  function BytesBelow(ps: seq<Packet>, n: nat): nat
  {
    if ps == [] then 0 else (if ps[0].sid < n then ps[0].length else 0) + BytesBelow(ps[1..], n)
  }

  lemma {:induction false} BytesBelowStep(ps: seq<Packet>, n: nat)
    ensures BytesBelow(ps, n + 1) == BytesBelow(ps, n) + BytesOf(ps, n)
    ensures BytesBelow(ps, n) <= Bytes(ps)
  {
    if ps != [] { BytesBelowStep(ps[1..], n); }
  }

  lemma {:induction false} BytesOfAppend(a: seq<Packet>, b: seq<Packet>, sid: nat)
    ensures BytesOf(a + b, sid) == BytesOf(a, sid) + BytesOf(b, sid)
  {
    if a == [] {
      assert a + b == b;
    } else {
      assert (a + b)[1..] == a[1..] + b;
      BytesOfAppend(a[1..], b, sid);
    }
  }

  lemma {:induction false} BytesOfOne(ps: seq<Packet>, sid: nat, only: nat)
    requires forall p :: p in ps ==> p.sid == only
    ensures BytesOf(ps, sid) == if sid == only then Bytes(ps) else 0
  {
    if ps != [] { BytesOfOne(ps[1..], sid, only); }
  }

  lemma {:induction false} BytesOfNone(ps: seq<Packet>, sid: nat)
    requires forall p :: p in ps ==> p.sid != sid
    ensures BytesOf(ps, sid) == 0
  {
    if ps != [] { BytesOfNone(ps[1..], sid); }
  }

  lemma {:induction false} PlanBytesOf(xs: seq<Sample>, sid: nat)
    requires sid < |xs| && forall x :: x in xs ==> x.WellFormed()
    ensures BytesOf(Plan(xs), sid) == |xs[sid].buf|
  {
    var n := |xs| - 1;
    var c := Cut(n, xs[n], xs[n].lens, 0);
    assert xs[n].WellFormed();
    CutFacts(n, xs[n], xs[n].lens, 0);
    BytesOfAppend(Plan(xs[..n]), c, sid);
    BytesOfOne(c, sid, n);
    PlanFacts(xs[..n]);
    if sid < n {
      PlanBytesOf(xs[..n], sid);
    } else {
      BytesOfNone(Plan(xs[..n]), n);
    }
  }

  /** After a call, retained buffers are at most the unsent bytes plus one sample. */
  lemma RetainedMemoryIsTight(s: State)
    requires Reachable(s) && StrandIdle(s)
    ensures var t := ReclaimAll(s);
      && (Drained(s) ==> t.memQueue == [])
      && HeldBytes(t.samples, t.memQueue)
         <= t.allocatedBytes + if t.memQueue == [] then 0 else |t.memQueue[0].sample.buf|
  {
    ReachableInv(s);
    var k := ReclaimIsExact(s);
    var k' := ReclaimAllDrops(s);
    ReclaimAllKeepsInv(s);
    var t := ReclaimAll(s);
    if t.memQueue == [] {
      HeldByNone(t.samples);
    } else {
      assert Unsent(t) == Pending(t);
      MemQueueSorted(t, 0, 0);
      assert t.memQueue[0].sample == t.samples[t.memQueue[0].sid] by {
        var freed := |t.sentLog| + |Pending(t)| - |t.memQueue|;
        assert t.memQueue[0] == (t.sentLog + Unsent(t))[freed];
        PlanFacts(t.samples);
        assert t.memQueue[0] in Plan(t.samples);
      }
      forall i | 0 <= i < |t.samples| && i != t.memQueue[0].sid && CountOf(t.memQueue, i) > 0
        ensures BytesOf(Pending(t), i) == |t.samples[i].buf|
      {
        CountZero(t.memQueue, i);
        HeldSampleIsWhollyPending(t, i);
      }
      HeldBound(t.samples, t.memQueue, Pending(t), t.memQueue[0].sid);
      BytesBelowStep(Pending(t), |t.samples|);
      RetainedIsUnsent(t, 0);
      CountZero(Unsent(t), t.memQueue[0].sid);
    }
  }

  lemma {:induction false} HeldByNone(xs: seq<Sample>)
    ensures HeldBytes(xs, []) == 0
  {
    if xs != [] { HeldByNone(xs[..|xs| - 1]); }
  }

  lemma {:induction false} HeldBound(xs: seq<Sample>, held: seq<Packet>, unsent: seq<Packet>, h: nat)
    requires forall i :: 0 <= i < |xs| && i != h && CountOf(held, i) > 0 ==> BytesOf(unsent, i) == |xs[i].buf|
    ensures HeldBytes(xs, held) <= BytesBelow(unsent, |xs|) + if h < |xs| then |xs[h].buf| else 0
  {
    if xs != [] {
      HeldBound(xs[..|xs| - 1], held, unsent, h);
      BytesBelowStep(unsent, |xs| - 1);
    }
  }

  lemma HeldSampleIsWhollyPending(t: State, sid: nat)
    requires Inv(t) && StrandIdle(t) && !FrontIsDangling(t) && t.memQueue != []
    requires sid != t.memQueue[0].sid && sid < |t.samples|
    requires exists p :: p in t.memQueue && p.sid == sid
    ensures BytesOf(Pending(t), sid) == |t.samples[sid].buf|
  {
    var head := t.memQueue[0];
    var i :| 0 <= i < |t.memQueue| && t.memQueue[i].sid == sid;
    MemQueueSorted(t, 0, i);
    RetainedIsUnsent(t, 0);
    CountZero(Unsent(t), head.sid);
    var q :| q in Unsent(t) && q.sid == head.sid;
    forall p | p in t.sentLog ensures p.sid != sid {
      SentBeforeUnsent(t, p, q);
    }
    BytesOfNone(t.sentLog, sid);
    BytesOfAppend(t.sentLog, Unsent(t), sid);
    PlanBytesOf(t.samples, sid);
    assert Unsent(t) == Pending(t);
  }
}
