/**
 * Steps of the two actors commute, so a job of the strand and a call of the
 * reclaimer may be taken as one step each, whatever the tx thread does meanwhile.
 */
module Atomicity {
  import opened Common
  import opened Pipeline
  import opened Delivery

  predicate IsTx(e: Event)
  {
    e == Pop || e == WriteAndAccount
  }

  predicate IsJobStep(e: Event)
  {
    e == CreateSample || e == PushMemory || e == PushQueue
  }

  /** The step a running job takes next. */
  function JobStep(s: State): (e: Event)
    requires !StrandIdle(s)
    ensures IsJobStep(e) && Enabled(s, e)
  {
    if s.handoff.Some? then PushQueue else if s.toPush != [] then PushMemory else CreateSample
  }

  lemma OnlyJobStep(s: State, e: Event)
    requires IsJobStep(e) && Enabled(s, e)
    ensures !StrandIdle(s) && e == JobStep(s) && FinishStrand(s) == FinishStrand(Apply(s, e))
  {
  }

  // ------------------------------------------------------ a job of the strand

  lemma PopCommutes(s: State, e: Event)
    requires IsJobStep(e) && Enabled(s, e) && Enabled(s, Pop)
    ensures Enabled(Apply(s, Pop), e) && Enabled(Apply(s, e), Pop)
    ensures Apply(Apply(s, Pop), e) == Apply(Apply(s, e), Pop)
  {
  }

  lemma WriteCommutes(s: State, e: Event)
    requires IsJobStep(e) && Enabled(s, e) && Enabled(s, WriteAndAccount)
    ensures Enabled(Apply(s, WriteAndAccount), e) && Enabled(Apply(s, e), WriteAndAccount)
    ensures Apply(Apply(s, WriteAndAccount), e) == Apply(Apply(s, e), WriteAndAccount)
  {
    var sid := s.inFlight.value.sid;
    if e == CreateSample {
      UpdateThenAppend(s.refCount, sid, s.refCount[sid] - 1, |s.toCreate[0].lens|);
    }
  }

  lemma UpdateThenAppend(xs: seq<int>, i: nat, v: int, x: int)
    requires i < |xs|
    ensures xs[i := v] + [x] == (xs + [x])[i := v]
  {
  }

  /** A tx step may wait until the job is done. */
  lemma {:induction false} TxAfterJob(s: State, x: Event)
    requires IsTx(x) && Enabled(s, x)
    ensures Enabled(FinishStrand(s), x)
    ensures FinishStrand(Apply(s, x)) == Apply(FinishStrand(s), x)
    decreases |s.toCreate|, 2 * |s.toPush| + |Slot(s.handoff)|
  {
    if !StrandIdle(s) {
      var e := JobStep(s);
      if x == Pop { PopCommutes(s, e); } else { WriteCommutes(s, e); }
      TxAfterJob(Apply(s, e), x);
      OnlyJobStep(Apply(s, x), e);
    }
  }

  /**
   * A job interleaved with the tx thread in any way ends as if the job had run at
   * once and the tx thread's own steps had followed.
   */
  lemma {:induction false} JobIsAtomic(s: State, events: seq<Event>) returns (tx: seq<Event>)
    requires forall i :: 0 <= i < |events| ==> IsTx(events[i]) || IsJobStep(events[i])
    requires Exec(s, events).Some? && StrandIdle(Exec(s, events).value)
    ensures forall i :: 0 <= i < |tx| ==> IsTx(tx[i])
    ensures Exec(FinishStrand(s), tx) == Exec(s, events)
    decreases |events|
  {
    if events == [] {
      tx := [];
    } else {
      var e := events[0];
      var rest := JobIsAtomic(Apply(s, e), events[1..]);
      if IsJobStep(e) {
        OnlyJobStep(s, e);
        tx := rest;
      } else {
        TxAfterJob(s, e);
        tx := [e] + rest;
        ExecCons(FinishStrand(s), e, rest);
      }
    }
  }

  lemma ExecCons(s: State, e: Event, rest: seq<Event>)
    requires Enabled(s, e)
    ensures Exec(s, [e] + rest) == Exec(Apply(s, e), rest)
  {
    assert ([e] + rest)[1..] == rest;
  }

  // --------------------------------------------------- a call of the reclaimer

  lemma TxBeforeReclaim(s: State, x: Event)
    requires Inv(s) && FrontIsDangling(s) && IsTx(x) && Enabled(s.(memQueue := s.memQueue[1..]), x)
    ensures Enabled(s, x) && FrontIsDangling(Apply(s, x))
    ensures Apply(s.(memQueue := s.memQueue[1..]), x) == Apply(s, x).(memQueue := s.memQueue[1..])
  {
    if x == WriteAndAccount { InFlightIsNotDangling(s); }
    TxKeepsFront(s, x);
  }

  lemma InFlightIsNotDangling(s: State)
    requires Inv(s) && FrontIsDangling(s) && s.inFlight.Some? && s.inFlight.value.sid < |s.refCount|
    ensures s.inFlight.value.sid != s.memQueue[0].sid
  {
    assert s.inFlight.value in Unsent(s);
    CountZero(Unsent(s), s.inFlight.value.sid);
  }

  lemma TxKeepsFront(s: State, x: Event)
    requires FrontIsDangling(s) && IsTx(x) && Enabled(s.(memQueue := s.memQueue[1..]), x)
    requires x == WriteAndAccount ==> s.inFlight.value.sid != s.memQueue[0].sid
    ensures Enabled(s, x) && FrontIsDangling(Apply(s, x))
    ensures Apply(s.(memQueue := s.memQueue[1..]), x) == Apply(s, x).(memQueue := s.memQueue[1..])
  {
  }

  /** What the reclaimer frees now it could as well free after the tx steps. */
  lemma {:induction false} ReclaimAfterTx(s: State, tx: seq<Event>)
    requires Reachable(s) && FrontIsDangling(s) && forall i :: 0 <= i < |tx| ==> IsTx(tx[i])
    requires Exec(s.(memQueue := s.memQueue[1..]), tx).Some?
    ensures Exec(s, tx).Some?
    ensures var u := Exec(s, tx).value;
      FrontIsDangling(u) && Exec(s.(memQueue := s.memQueue[1..]), tx).value == u.(memQueue := u.memQueue[1..])
    decreases |tx|
  {
    if tx != [] {
      ReachableInv(s);
      TxBeforeReclaim(s, tx[0]);
      ReachableStep(s, tx[0]);
      ReclaimAfterTx(Apply(s, tx[0]), tx[1..]);
    }
  }

  /**
   * A call of the reclaimer interleaved with the tx thread in any way, up to the
   * test that ends it, is those tx steps followed by the whole call at once.
   */
  lemma {:induction false} ReclaimIsAtomic(s: State, events: seq<Event>) returns (tx: seq<Event>)
    requires Reachable(s) && forall i :: 0 <= i < |events| ==> IsTx(events[i]) || events[i] == Reclaim
    requires Exec(s, events).Some? && !FrontIsDangling(Exec(s, events).value)
    ensures forall i :: 0 <= i < |tx| ==> IsTx(tx[i])
    ensures Exec(s, tx).Some? && Exec(s, events).value == ReclaimAll(Exec(s, tx).value)
    decreases |events|
  {
    if events == [] {
      tx := [];
    } else {
      var e := events[0];
      ReachableStep(s, e);
      var rest := ReclaimIsAtomic(Apply(s, e), events[1..]);
      if e == Reclaim {
        tx := rest;
        ReclaimAfterTx(s, rest);
      } else {
        tx := [e] + rest;
        ExecCons(s, e, rest);
      }
    }
  }

  lemma {:induction false} ReachableRun(s: State, events: seq<Event>)
    requires Reachable(s) && WellFormedRun(events) && Exec(s, events).Some?
    ensures Reachable(Exec(s, events).value)
    decreases |events|
  {
    if events != [] {
      ReachableStep(s, events[0]);
      ReachableRun(Apply(s, events[0]), events[1..]);
    }
  }

  lemma {:induction false} TxLeavesStrandIdle(s: State, tx: seq<Event>)
    requires StrandIdle(s) && (forall i :: 0 <= i < |tx| ==> IsTx(tx[i])) && Exec(s, tx).Some?
    ensures StrandIdle(Exec(s, tx).value)
    decreases |tx|
  {
    if tx != [] { TxLeavesStrandIdle(Apply(s, tx[0]), tx[1..]); }
  }

  /**
   * However the tx thread interferes, what a call of the reclaimer leaves in the
   * queue has unsent packets, the buffers kept alive are at most the unsent bytes
   * plus one sample, and nothing is kept once everything is drained.
   */
  lemma InterleavedReclaimIsTight(s: State, events: seq<Event>)
    requires Reachable(s) && StrandIdle(s)
    requires forall i :: 0 <= i < |events| ==> IsTx(events[i]) || events[i] == Reclaim
    requires Exec(s, events).Some? && !FrontIsDangling(Exec(s, events).value)
    ensures var t := Exec(s, events).value;
      && (forall i :: 0 <= i < |t.memQueue| ==>
            t.memQueue[i].sid < |t.refCount| && t.refCount[t.memQueue[i].sid] > 0)
      && (Drained(t) ==> t.memQueue == [])
      && HeldBytes(t.samples, t.memQueue)
         <= t.allocatedBytes + if t.memQueue == [] then 0 else |t.memQueue[0].sample.buf|
  {
    var t := Exec(s, events).value;
    var tx := ReclaimIsAtomic(s, events);
    var u := Exec(s, tx).value;
    ReachableRun(s, tx);
    TxLeavesStrandIdle(s, tx);
    RetainedMemoryIsTight(u);
    ReachableInv(u);
    ReclaimAllKeepsInv(u);
    forall i | 0 <= i < |t.memQueue|
      ensures t.memQueue[i].sid < |t.refCount| && t.refCount[t.memQueue[i].sid] > 0
    {
      RetainedIsUnsent(t, i);
    }
  }

  /** The reclaimer's call, as a step of the machine, leads to a reachable state. */
  lemma {:induction false} ReclaimStaysReachable(s: State)
    requires Reachable(s) && StrandIdle(s)
    ensures Reachable(ReclaimAll(s)) && StrandIdle(ReclaimAll(s)) && ReclaimAll(s).jobs == s.jobs
    decreases |s.memQueue|
  {
    if FrontIsDangling(s) {
      ReachableStep(s, Reclaim);
      ReclaimStaysReachable(Apply(s, Reclaim));
    }
  }
}
