/**
 * The per-session delivery pipeline as a state machine over its finest steps.
 *
 * Two actors share the state.  The strand runs reading jobs, the reclaimer and
 * pause switching, one at a time; the tx thread pops, writes and accounts.  An
 * interleaving is any list of events each of which is enabled when it happens.
 */
module Pipeline {
  import opened Common

  const MAX_CLIENT_BUFFER_SIZE := 5 * 1024 * 1024

  datatype Media = Video | Audio

  /** A sample read into memory and the lengths of the packets it is cut into. */
  datatype Sample = Sample(media: Media, buf: seq<byte>, lens: seq<nat>)
  {
    ghost predicate WellFormed() {
      && Sum(lens) == |buf|
      && (media == Audio ==> |lens| == 1)
    }
  }

  /** RtpPacketInfo: the sample it points to (identity and contents) and a slice. */
  datatype Packet = Packet(sid: nat, sample: Sample, offset: nat, length: nat)
  {
    predicate InBounds() {
      offset + length <= |sample.buf|
    }

    // The audio branch of the tx thread ignores the offset.
    function Payload(): seq<byte>
      requires InBounds()
    {
      if sample.media == Video then sample.buf[offset..offset + length] else sample.buf[..length]
    }
  }

  datatype State = State(
    refCount: seq<int>,           // by sample identity
    memQueue: seq<Packet>,        // rtpMemoryQueue, the owner
    txQueue: seq<Packet>,         // rtpQueuePtr, raw pointers
    inFlight: Option<Packet>,     // popped by the tx thread, not yet accounted
    allocatedBytes: int,          // allocatedBytesForSample
    paused: bool,
    wire: seq<byte>,              // RTP bytes written to the socket
    toCreate: seq<Sample>,        // strand: samples of the running job still to be made
    toPush: seq<Packet>,          // strand: packets of the current sample still to be pushed
    handoff: Option<Packet>,      // strand: in memQueue, not yet in txQueue
    jobs: seq<seq<Sample>>,       // history: every job begun
    samples: seq<Sample>,         // history: every sample created
    sentLog: seq<Packet>          // history: every packet accounted as sent
  )

  const Init := State([], [], [], None, 0, false, [], [], [], None, [], [], [])

  datatype Event =
    | BeginJob(job: seq<Sample>)
    | CreateSample
    | PushMemory
    | PushQueue
    | Pop
    | WriteAndAccount
    | Reclaim
    | SetPaused(value: bool)

  function Slot(o: Option<Packet>): seq<Packet>
  {
    if o.Some? then [o.value] else []
  }

  predicate StrandIdle(s: State)
  {
    s.toCreate == [] && s.toPush == [] && s.handoff == None
  }

  /** What a dereference of a raw packet pointer needs: the object is still owned. */
  predicate Live(s: State, p: Packet)
  {
    p in s.memQueue && p.InBounds() && p.sid < |s.refCount|
  }

  /** The test deleteDanglingRtps makes on the front of rtpMemoryQueue. */
  predicate FrontIsDangling(s: State)
  {
    s.memQueue != [] && s.memQueue[0].sid < |s.refCount| && s.refCount[s.memQueue[0].sid] == 0
  }

  predicate Enabled(s: State, e: Event)
  {
    match e
    case BeginJob(_) => StrandIdle(s) && !s.paused && s.allocatedBytes < MAX_CLIENT_BUFFER_SIZE
    case CreateSample => s.toCreate != [] && s.toPush == [] && s.handoff == None
    case PushMemory => s.toPush != [] && s.handoff == None
    case PushQueue => s.handoff.Some?
    // The tx loop tests the pause flag before it pops, and a pause can set in between.
    case Pop => s.inFlight == None && s.txQueue != []
    case WriteAndAccount => s.inFlight.Some? && Live(s, s.inFlight.value)
    case Reclaim => StrandIdle(s) && FrontIsDangling(s)
    case SetPaused(_) => StrandIdle(s)
  }

  /** The packets a sample is cut into, with the slicer's running offset. */
  function Cut(sid: nat, sample: Sample, lens: seq<nat>, from: nat): seq<Packet>
  {
    if lens == [] then []
    else [Packet(sid, sample, from, lens[0])] + Cut(sid, sample, lens[1..], from + lens[0])
  }

  function Apply(s: State, e: Event): State
    requires Enabled(s, e)
  {
    match e
    case BeginJob(job) => s.(toCreate := job, jobs := s.jobs + [job])
    case CreateSample =>
      var x := s.toCreate[0];
      s.(toCreate := s.toCreate[1..],
         refCount := s.refCount + [|x.lens|],
         toPush := Cut(|s.samples|, x, x.lens, 0),
         samples := s.samples + [x])
    case PushMemory =>
      var p := s.toPush[0];
      s.(toPush := s.toPush[1..], handoff := Some(p),
         allocatedBytes := s.allocatedBytes + p.length, memQueue := s.memQueue + [p])
    case PushQueue => s.(txQueue := s.txQueue + [s.handoff.value], handoff := None)
    case Pop => s.(inFlight := Some(s.txQueue[0]), txQueue := s.txQueue[1..])
    case WriteAndAccount =>
      var p := s.inFlight.value;
      s.(wire := s.wire + p.Payload(),
         refCount := s.refCount[p.sid := s.refCount[p.sid] - 1],
         allocatedBytes := s.allocatedBytes - p.length,
         inFlight := None,
         sentLog := s.sentLog + [p])
    case Reclaim => s.(memQueue := s.memQueue[1..])
    case SetPaused(b) => s.(paused := b)
  }

  /** A whole round of the tx thread with no strand step in between. */
  function Transmit(s: State): State
    requires s.txQueue != [] && Live(s, s.txQueue[0])
  {
    var p := s.txQueue[0];
    s.(txQueue := s.txQueue[1..],
       wire := s.wire + p.Payload(),
       refCount := s.refCount[p.sid := s.refCount[p.sid] - 1],
       allocatedBytes := s.allocatedBytes - p.length,
       sentLog := s.sentLog + [p])
  }

  lemma TransmitIsTwoSteps(s: State)
    requires s.inFlight == None && s.txQueue != [] && Live(s, s.txQueue[0])
    ensures Enabled(s, Pop) && Enabled(Apply(s, Pop), WriteAndAccount)
    ensures Transmit(s) == Apply(Apply(s, Pop), WriteAndAccount)
  {
  }

  /** The strand runs the rest of its job with no tx step in between. */
  function FinishStrand(s: State): State
    decreases |s.toCreate|, 2 * |s.toPush| + |Slot(s.handoff)|
  {
    if s.handoff.Some? then FinishStrand(Apply(s, PushQueue))
    else if s.toPush != [] then FinishStrand(Apply(s, PushMemory))
    else if s.toCreate != [] then FinishStrand(Apply(s, CreateSample))
    else s
  }

  /** The state after a list of events, if every one of them was enabled in turn. */
  function Exec(s: State, events: seq<Event>): Option<State>
    decreases |events|
  {
    if events == [] then Some(s)
    else if !Enabled(s, events[0]) then None
    else Exec(Apply(s, events[0]), events[1..])
  }

  lemma {:induction false} ExecAppend(s: State, xs: seq<Event>, ys: seq<Event>)
    requires Exec(s, xs).Some?
    ensures Exec(s, xs + ys) == Exec(Exec(s, xs).value, ys)
    decreases |xs|
  {
    if xs == [] {
      assert xs + ys == ys;
    } else {
      assert (xs + ys)[1..] == xs[1..] + ys;
      ExecAppend(Apply(s, xs[0]), xs[1..], ys);
    }
  }

  ghost predicate Reachable(s: State)
  {
    exists events :: WellFormedRun(events) && Exec(Init, events) == Some(s)
  }

  // ---------------------------------------------------------------- measures

  function CountOf(ps: seq<Packet>, sid: nat): nat
  {
    if ps == [] then 0 else (if ps[0].sid == sid then 1 else 0) + CountOf(ps[1..], sid)
  }

  function Bytes(ps: seq<Packet>): nat
  {
    if ps == [] then 0 else ps[0].length + Bytes(ps[1..])
  }

  ghost predicate AllInBounds(ps: seq<Packet>)
  {
    forall p :: p in ps ==> p.InBounds()
  }

  /** The bytes of the packets' slices, in order: a direct write. */
  function Payloads(ps: seq<Packet>): seq<byte>
    requires AllInBounds(ps)
  {
    if ps == [] then [] else ps[0].Payload() + Payloads(ps[1..])
  }

  function BufBytes(xs: seq<Sample>): nat
  {
    if xs == [] then 0 else |xs[0].buf| + BufBytes(xs[1..])
  }

  /** Every packet of a list of samples, in order; identities are positions. */
  function Plan(xs: seq<Sample>): seq<Packet>
  {
    if xs == [] then []
    else
      var n := |xs| - 1;
      Plan(xs[..n]) + Cut(n, xs[n], xs[n].lens, 0)
  }

  /** In rtpMemoryQueue since it was pushed, and not yet accounted as sent. */
  function Pending(s: State): seq<Packet>
  {
    Slot(s.inFlight) + s.txQueue + Slot(s.handoff)
  }

  function Unsent(s: State): seq<Packet>
  {
    Pending(s) + s.toPush
  }

  function MaxJob(jobs: seq<seq<Sample>>): nat
  {
    if jobs == [] then 0
    else
      var m, b := MaxJob(jobs[..|jobs| - 1]), BufBytes(jobs[|jobs| - 1]);
      if m < b then b else m
  }

  // --------------------------------------------------------------- invariant

  /** FIFO order: nothing is lost, repeated or overtaken. */
  ghost predicate OrderInv(s: State)
  {
    s.sentLog + Unsent(s) == Plan(s.samples)
  }

  /** What rtpMemoryQueue owns: everything pushed, less a prefix of what was sent. */
  ghost predicate OwnerInv(s: State)
  {
    var freed := |s.sentLog| + |Pending(s)| - |s.memQueue|;
    0 <= freed <= |s.sentLog| && s.memQueue == s.sentLog[freed..] + Pending(s)
  }

  /** refCount of a sample: its packets not yet accounted as sent. */
  ghost predicate CountInv(s: State)
  {
    && |s.refCount| == |s.samples|
    && forall sid :: 0 <= sid < |s.refCount| ==> s.refCount[sid] == CountOf(Unsent(s), sid)
  }

  ghost predicate BudgetInv(s: State)
  {
    && s.allocatedBytes == Bytes(Pending(s))
    && s.allocatedBytes + Bytes(s.toPush) + BufBytes(s.toCreate) < MAX_CLIENT_BUFFER_SIZE + MaxJob(s.jobs)
  }

  ghost predicate WireInv(s: State)
  {
    && (forall x :: x in s.samples ==> x.WellFormed())
    && (forall x :: x in s.toCreate ==> x.WellFormed())
    && AllInBounds(s.sentLog)
    && s.wire == Payloads(s.sentLog)
    && s.samples + s.toCreate == Flatten(s.jobs)
  }

  ghost predicate Inv(s: State)
  {
    OrderInv(s) && OwnerInv(s) && CountInv(s) && BudgetInv(s) && WireInv(s)
  }

  /** Jobs hold samples whose packet lengths add up to their size. */
  ghost predicate WellFormedEvent(e: Event)
  {
    e.BeginJob? ==> forall x :: x in e.job ==> x.WellFormed()
  }

  ghost predicate WellFormedRun(events: seq<Event>)
  {
    forall i :: 0 <= i < |events| ==> WellFormedEvent(events[i])
  }

  // ------------------------------------------------- lemmas about the measures

  lemma {:induction false} CountAppend(a: seq<Packet>, b: seq<Packet>, sid: nat)
    ensures CountOf(a + b, sid) == CountOf(a, sid) + CountOf(b, sid)
  {
    if a == [] {
      assert a + b == b;
    } else {
      assert (a + b)[1..] == a[1..] + b;
      CountAppend(a[1..], b, sid);
    }
  }

  lemma {:induction false} CountZero(a: seq<Packet>, sid: nat)
    ensures CountOf(a, sid) == 0 <==> forall p :: p in a ==> p.sid != sid
  {
    if a != [] {
      CountZero(a[1..], sid);
      assert forall p :: p in a <==> p == a[0] || p in a[1..];
    }
  }

  lemma {:induction false} BytesAppend(a: seq<Packet>, b: seq<Packet>)
    ensures Bytes(a + b) == Bytes(a) + Bytes(b)
  {
    if a == [] {
      assert a + b == b;
    } else {
      assert (a + b)[1..] == a[1..] + b;
      BytesAppend(a[1..], b);
    }
  }

  lemma {:induction false} PayloadsAppend(a: seq<Packet>, b: seq<Packet>)
    requires AllInBounds(a) && AllInBounds(b)
    ensures AllInBounds(a + b) && Payloads(a + b) == Payloads(a) + Payloads(b)
  {
    if a == [] {
      assert a + b == b;
    } else {
      assert (a + b)[1..] == a[1..] + b;
      PayloadsAppend(a[1..], b);
    }
  }

  lemma {:induction false} CutFacts(sid: nat, x: Sample, lens: seq<nat>, from: nat)
    requires from + Sum(lens) <= |x.buf|
    ensures forall p :: p in Cut(sid, x, lens, from) ==> p.sid == sid && p.sample == x && p.InBounds()
    ensures |Cut(sid, x, lens, from)| == |lens| == CountOf(Cut(sid, x, lens, from), sid)
    ensures Bytes(Cut(sid, x, lens, from)) == Sum(lens)
  {
    if lens != [] {
      assert Sum(lens[1..]) >= 0 by { SumNonNegative(lens[1..]); }
      CutFacts(sid, x, lens[1..], from + lens[0]);
      var head, tail := Packet(sid, x, from, lens[0]), Cut(sid, x, lens[1..], from + lens[0]);
      assert Cut(sid, x, lens, from) == [head] + tail;
      assert ([head] + tail)[1..] == tail;
    }
  }

  /** The slices of a sample, put back together, are its buffer. */
  lemma {:induction false} CutTiles(sid: nat, x: Sample, lens: seq<nat>, from: nat)
    requires from + Sum(lens) <= |x.buf|
    requires x.media == Audio ==> lens == [] || (|lens| == 1 && from == 0)
    ensures AllInBounds(Cut(sid, x, lens, from))
    ensures 0 <= Sum(lens) && Payloads(Cut(sid, x, lens, from)) == x.buf[from..from + Sum(lens)]
  {
    SumNonNegative(lens);
    if lens != [] {
      var head, tail := Packet(sid, x, from, lens[0]), Cut(sid, x, lens[1..], from + lens[0]);
      SumNonNegative(lens[1..]);
      CutTiles(sid, x, lens[1..], from + lens[0]);
      HeadPayload(head);
      PayloadsCons(head, tail);
      SliceJoin(x.buf, from, from + lens[0], from + Sum(lens));
    }
  }

  lemma HeadPayload(p: Packet)
    requires p.InBounds() && (p.sample.media == Audio ==> p.offset == 0)
    ensures p.Payload() == p.sample.buf[p.offset..p.offset + p.length]
  {
  }

  lemma PayloadsCons(p: Packet, ps: seq<Packet>)
    requires p.InBounds() && AllInBounds(ps)
    ensures AllInBounds([p] + ps) && Payloads([p] + ps) == p.Payload() + Payloads(ps)
  {
    assert ([p] + ps)[1..] == ps;
  }

  lemma {:induction false} PlanFacts(xs: seq<Sample>)
    requires forall x :: x in xs ==> x.WellFormed()
    ensures forall p :: p in Plan(xs) ==> p.sid < |xs| && p.sample == xs[p.sid] && p.InBounds()
  {
    if xs != [] {
      var n := |xs| - 1;
      PlanFacts(xs[..n]);
      assert xs[n].WellFormed();
      CutFacts(n, xs[n], xs[n].lens, 0);
    }
  }

  /** The whole plan, written directly, is the sample buffers in order. */
  lemma {:induction false} PlanTiles(xs: seq<Sample>)
    requires forall x :: x in xs ==> x.WellFormed()
    ensures AllInBounds(Plan(xs))
    ensures Payloads(Plan(xs)) == Flatten(Bufs(xs))
  {
    PlanFacts(xs);
    if xs != [] {
      var n := |xs| - 1;
      var cut := Cut(n, xs[n], xs[n].lens, 0);
      PlanTiles(xs[..n]);
      assert Payloads(cut) == xs[n].buf by {
        assert xs[n].WellFormed();
        CutTiles(n, xs[n], xs[n].lens, 0);
      }
      PayloadsAppend(Plan(xs[..n]), cut);
      BufsSnoc(xs);
    }
  }

  lemma BufsSnoc(xs: seq<Sample>)
    requires xs != []
    ensures Flatten(Bufs(xs)) == Flatten(Bufs(xs[..|xs| - 1])) + xs[|xs| - 1].buf
  {
    var n := |xs| - 1;
    assert xs == xs[..n] + [xs[n]];
    BufsAppend(xs[..n], [xs[n]]);
    assert Bufs([xs[n]]) == [xs[n].buf];
    FlattenSnoc(Bufs(xs[..n]), xs[n].buf);
  }

  function Bufs(xs: seq<Sample>): seq<seq<byte>>
  {
    if xs == [] then [] else [xs[0].buf] + Bufs(xs[1..])
  }

  lemma {:induction false} BufsAppend(xs: seq<Sample>, ys: seq<Sample>)
    ensures Bufs(xs + ys) == Bufs(xs) + Bufs(ys)
  {
    if xs == [] {
      assert xs + ys == ys;
    } else {
      assert (xs + ys)[1..] == xs[1..] + ys;
      BufsAppend(xs[1..], ys);
    }
  }

  // ---------------------------------------------------- each step keeps it all

  lemma CreateSampleShape(s: State)
    requires Enabled(s, CreateSample)
    ensures Pending(Apply(s, CreateSample)) == Pending(s) == Unsent(s)
    ensures Unsent(Apply(s, CreateSample)) == Unsent(s) + Apply(s, CreateSample).toPush
  {
  }

  lemma NextIsWellFormed(s: State)
    requires WireInv(s) && s.toCreate != []
    ensures s.toCreate[0].WellFormed()
  {
  }

  lemma CreateSampleOwner(s: State)
    requires OwnerInv(s) && Enabled(s, CreateSample)
    ensures OwnerInv(Apply(s, CreateSample))
  {
    CreateSampleShape(s);
  }

  lemma CreateSampleCounts(s: State)
    requires CountInv(s) && OrderInv(s) && WireInv(s) && Enabled(s, CreateSample)
    ensures CountInv(Apply(s, CreateSample))
  {
    var x, n, t := s.toCreate[0], |s.samples|, Apply(s, CreateSample);
    CreateSampleShape(s);
    NextIsWellFormed(s);
    CutFacts(n, x, x.lens, 0);
    PlanFacts(s.samples);
    assert forall p :: p in Unsent(s) ==> p in s.sentLog + Unsent(s);
    forall sid | 0 <= sid < |t.refCount|
      ensures t.refCount[sid] == CountOf(Unsent(t), sid)
    {
      CountAppend(Unsent(s), t.toPush, sid);
      if sid == n {
        CountZero(Unsent(s), n);
      } else {
        CountZero(t.toPush, sid);
      }
    }
  }

  lemma CreateSampleOrder(s: State)
    requires OrderInv(s) && Enabled(s, CreateSample)
    ensures OrderInv(Apply(s, CreateSample))
  {
    var t := Apply(s, CreateSample);
    assert t.samples[..|s.samples|] == s.samples;
    assert Unsent(t) == Unsent(s) + t.toPush;
    assert t.sentLog + Unsent(t) == (s.sentLog + Unsent(s)) + t.toPush;
  }

  lemma CreateSampleBudget(s: State)
    requires BudgetInv(s) && Enabled(s, CreateSample) && s.toCreate[0].WellFormed()
    ensures BudgetInv(Apply(s, CreateSample))
  {
    assert Pending(Apply(s, CreateSample)) == Pending(s);
    CutFacts(|s.samples|, s.toCreate[0], s.toCreate[0].lens, 0);
  }

  lemma CreateSampleWire(s: State)
    requires WireInv(s) && Enabled(s, CreateSample)
    ensures WireInv(Apply(s, CreateSample))
  {
    var t := Apply(s, CreateSample);
    assert t.samples + t.toCreate == s.samples + s.toCreate;
  }

  lemma StepCreateSample(s: State)
    requires Inv(s) && Enabled(s, CreateSample)
    ensures Inv(Apply(s, CreateSample))
  {
    NextIsWellFormed(s);
    CreateSampleCounts(s);
    CreateSampleOrder(s);
    CreateSampleOwner(s);
    CreateSampleBudget(s);
    CreateSampleWire(s);
  }

  lemma PushMemoryShape(s: State)
    requires Enabled(s, PushMemory)
    ensures Pending(Apply(s, PushMemory)) == Pending(s) + [s.toPush[0]]
    ensures Unsent(Apply(s, PushMemory)) == Unsent(s)
    ensures s.toPush == [s.toPush[0]] + s.toPush[1..]
  {
  }

  lemma PushMemoryOwner(s: State)
    requires OwnerInv(s) && Enabled(s, PushMemory)
    ensures OwnerInv(Apply(s, PushMemory))
  {
    PushMemoryShape(s);
    var freed := |s.sentLog| + |Pending(s)| - |s.memQueue|;
    assert s.sentLog[freed..] + (Pending(s) + [s.toPush[0]]) == s.memQueue + [s.toPush[0]];
  }

  lemma PushMemoryBudget(s: State)
    requires BudgetInv(s) && Enabled(s, PushMemory)
    ensures BudgetInv(Apply(s, PushMemory))
  {
    PushMemoryShape(s);
    BytesAppend(Pending(s), [s.toPush[0]]);
  }

  lemma StepPushMemory(s: State)
    requires Inv(s) && Enabled(s, PushMemory)
    ensures Inv(Apply(s, PushMemory))
  {
    PushMemoryShape(s);
    PushMemoryOwner(s);
    PushMemoryBudget(s);
  }

  lemma StepPushQueue(s: State)
    requires Inv(s) && Enabled(s, PushQueue)
    ensures Inv(Apply(s, PushQueue))
  {
    assert Pending(Apply(s, PushQueue)) == Pending(s);
  }

  lemma StepPop(s: State)
    requires Inv(s) && Enabled(s, Pop)
    ensures Inv(Apply(s, Pop))
  {
    assert Pending(Apply(s, Pop)) == Pending(s);
  }

  lemma WriteShape(s: State)
    requires Enabled(s, WriteAndAccount)
    ensures var t, p := Apply(s, WriteAndAccount), s.inFlight.value;
      && Pending(s) == [p] + Pending(t)
      && Unsent(s) == [p] + Unsent(t)
      && Pending(s)[1..] == Pending(t)
      && Unsent(s)[1..] == Unsent(t)
  {
  }

  lemma WriteKeepsOwner(s: State)
    requires OwnerInv(s) && Enabled(s, WriteAndAccount)
    ensures OwnerInv(Apply(s, WriteAndAccount))
  {
    var p, rest := s.inFlight.value, Pending(Apply(s, WriteAndAccount));
    WriteShape(s);
    var freed := |s.sentLog| + |Pending(s)| - |s.memQueue|;
    BorderMoves(s.sentLog, p, rest, freed);
  }

  lemma BorderMoves(sent: seq<Packet>, p: Packet, rest: seq<Packet>, freed: nat)
    requires freed <= |sent|
    ensures sent[freed..] + ([p] + rest) == (sent + [p])[freed..] + rest
  {
    assert (sent + [p])[freed..] == sent[freed..] + [p];
  }

  lemma WriteKeepsWire(s: State)
    requires WireInv(s) && Enabled(s, WriteAndAccount)
    ensures WireInv(Apply(s, WriteAndAccount))
  {
    var p := s.inFlight.value;
    PayloadsAppend(s.sentLog, [p]);
    assert Payloads([p]) == p.Payload() + Payloads([]);
  }

  lemma WriteKeepsCounts(s: State)
    requires CountInv(s) && BudgetInv(s) && OrderInv(s) && Enabled(s, WriteAndAccount)
    ensures var t := Apply(s, WriteAndAccount); CountInv(t) && BudgetInv(t) && OrderInv(t)
  {
    var t := Apply(s, WriteAndAccount);
    WriteShape(s);
    assert t.sentLog + Unsent(t) == s.sentLog + Unsent(s);
  }

  lemma StepWriteAndAccount(s: State)
    requires Inv(s) && Enabled(s, WriteAndAccount)
    ensures Inv(Apply(s, WriteAndAccount))
  {
    WriteKeepsCounts(s);
    WriteKeepsOwner(s);
    WriteKeepsWire(s);
  }

  /** The reclaimer never frees a packet that is still to be sent. */
  lemma StepReclaim(s: State)
    requires Inv(s) && Enabled(s, Reclaim)
    ensures Inv(Apply(s, Reclaim))
    ensures s.memQueue[0] !in Unsent(s)
  {
    var t := Apply(s, Reclaim);
    var freed := |s.sentLog| + |Pending(s)| - |s.memQueue|;
    CountZero(Unsent(s), s.memQueue[0].sid);
    assert s.memQueue[0] !in Unsent(s);
    FrontWasSent(s.sentLog, Pending(s), s.memQueue, freed);
    assert Pending(t) == Pending(s) && Unsent(t) == Unsent(s);
    assert OwnerInv(t);
  }

  lemma FrontWasSent(sent: seq<Packet>, pending: seq<Packet>, owned: seq<Packet>, freed: nat)
    requires freed <= |sent| && owned == sent[freed..] + pending && owned != [] && owned[0] !in pending
    ensures freed < |sent| && owned[1..] == sent[freed + 1..] + pending
  {
    assert sent[|sent|..] + pending == pending;
  }

  lemma StepBeginJob(s: State, job: seq<Sample>)
    requires Inv(s) && Enabled(s, BeginJob(job))
    requires forall x :: x in job ==> x.WellFormed()
    ensures Inv(Apply(s, BeginJob(job)))
  {
    var t := Apply(s, BeginJob(job));
    assert t.jobs[..|s.jobs|] == s.jobs;
    assert Pending(t) == Pending(s) && Unsent(t) == Unsent(s);
    FlattenSnoc(s.jobs, job);
    assert s.samples + s.toCreate == s.samples;
  }

  lemma StepKeepsInv(s: State, e: Event)
    requires Inv(s) && Enabled(s, e) && WellFormedEvent(e)
    ensures Inv(Apply(s, e))
  {
    match e
    case BeginJob(job) => StepBeginJob(s, job);
    case CreateSample => StepCreateSample(s);
    case PushMemory => StepPushMemory(s);
    case PushQueue => StepPushQueue(s);
    case Pop => StepPop(s);
    case WriteAndAccount => StepWriteAndAccount(s);
    case Reclaim => StepReclaim(s);
    case SetPaused(b) =>
      assert Pending(Apply(s, e)) == Pending(s);
  }

  lemma InitInv()
    ensures Inv(Init)
  {
    assert Pending(Init) == [];
  }

  lemma {:induction false} ExecKeepsInv(s: State, events: seq<Event>)
    requires Inv(s) && WellFormedRun(events) && Exec(s, events).Some?
    ensures Inv(Exec(s, events).value)
    decreases |events|
  {
    if events != [] {
      assert WellFormedEvent(events[0]);
      StepKeepsInv(s, events[0]);
      ExecKeepsInv(Apply(s, events[0]), events[1..]);
    }
  }
}
