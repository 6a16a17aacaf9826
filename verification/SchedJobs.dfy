/** The steps on a popped job, hardware completions and resets keep the
    invariant. */
module SchedJobs {
  import opened Wrappers
  import opened SchedModel
  import opened SchedInv

  /** What a step on job j of scheduler k leaves alone, and what it may raise. */
  ghost predicate JobFrame(s: State, s': State, k: nat, j: nat) {
    && s'.entities == s.entities && s'.limit == s.limit && s'.external == s.external
    && |s'.scheds| == |s.scheds| && |s'.jobs| == |s.jobs| && k < |s.scheds| && j < |s.jobs|
    && s.jobs[j].sched == k && PastQueue(s.jobs[j].phase) && PastQueue(s'.jobs[j].phase)
    && (forall i :: 0 <= i < |s.jobs| && i != j ==> s'.jobs[i] == s.jobs[i])
    && (forall q :: 0 <= q < |s.scheds| && q != k ==> s'.scheds[q] == s.scheds[q])
    && s'.jobs[j].entity == s.jobs[j].entity && s'.jobs[j].sched == k && s'.jobs[j].handed == s.jobs[j].handed
    && (s.jobs[j].scheduled ==> s'.jobs[j].scheduled) && (s.jobs[j].finished ==> s'.jobs[j].finished)
    && (forall x :: 0 <= x < |s.scheds[k].ring| ==>
          x < |s'.scheds[k].ring| && s'.scheds[k].ring[x] == s.scheds[k].ring[x])
    && (s'.scheds[k].thread == s.scheds[k].thread ||
        (NotOnEntity(s.scheds[k].thread) && NotOnEntity(s'.scheds[k].thread)))
  }

  predicate NotOnEntity(t: ThreadPc) {
    t.TIdle? || t.TPopped? || t.TCounted? || t.TRan? || t.TAnnounced?
  }

  lemma FrameSignals(s: State, s': State, k: nat, j: nat)
    requires JobFrame(s, s', k, j)
    ensures forall f :: Signaled(s, f) ==> Signaled(s', f)
    ensures forall i :: 0 <= i < |s.jobs| && s.jobs[i].scheduled ==> s'.jobs[i].scheduled
  {
  }

  lemma FrameEntity(s: State, s': State, k: nat, j: nat, e: nat)
    requires JobFrame(s, s', k, j) && Bounds(s) && e < |s.entities| && EntityInv(s, e)
    ensures Bounds(s') && EntityInv(s', e)
  {
    FrameSignals(s, s', k, j);
    var n := s.entities[e];
    var t, t' := s.scheds[n.rq].thread, s'.scheds[n.rq].thread;
    assert t' == t || (NotOnEntity(t) && NotOnEntity(t'));
    assert QueueInv(s', e);
    assert LastInv(s', e);
    assert SubInv(s', e);
    if n.queue != [] {
      var h := n.queue[0];
      assert h != j && s'.jobs[h] == s.jobs[h];
      forall f | f in s'.jobs[h].handed
        ensures Satisfied(s', h, f) || Awaited(s', e, f)
      {
        assert Satisfied(s, h, f) || Awaited(s, e, f);
      }
    }
    assert DepInv(s', e);
  }

  lemma FrameOtherScheduler(s: State, s': State, k: nat, j: nat, q: nat)
    requires JobFrame(s, s', k, j) && q < |s.scheds| && q != k && SchedulerInv(s, q)
    ensures SchedulerInv(s', q)
  {
    assert RingInv(s', q);
    CountUpdate(s.jobs, j, s'.jobs[j], q);
    assert s'.jobs == s.jobs[j := s'.jobs[j]];
  }

  lemma FrameOtherJob(s: State, s': State, k: nat, j: nat, i: nat)
    requires JobFrame(s, s', k, j) && Bounds(s) && i < |s.jobs| && i != j && JobInv(s, i)
    requires InThread(s.jobs[i].phase) && s.jobs[i].sched == k ==> s'.scheds[k].thread == s.scheds[k].thread
    ensures Bounds(s') && JobInv(s', i)
  {
    FrameSignals(s, s', k, j);
    if HasFence(s.jobs[i].phase) && s.jobs[i].sched == k {
      var x :| 0 <= x < |s.scheds[k].ring| && s.scheds[k].ring[x] == i;
      assert s'.scheds[k].ring[x] == i;
    }
  }

  /** Assembles the invariant after a step on job j of scheduler k. */
  lemma FrameKeeps(s: State, s': State, k: nat, j: nat)
    requires Inv(s) && JobFrame(s, s', k, j)
    requires forall i :: 0 <= i < |s.jobs| && i != j && InThread(s.jobs[i].phase) && s.jobs[i].sched == k ==>
               s'.scheds[k].thread == s.scheds[k].thread
    requires SchedulerInv(s', k) && Bounds(s') && JobInv(s', j)
    ensures Inv(s')
  {
    forall e | 0 <= e < |s'.entities|
      ensures EntityInv(s', e)
    {
      assert EntityInv(s, e);
      FrameEntity(s, s', k, j, e);
    }
    forall q | 0 <= q < |s'.scheds|
      ensures SchedulerInv(s', q)
    {
      assert SchedulerInv(s, q);
      if q != k {
        FrameOtherScheduler(s, s', k, j, q);
      }
    }
    forall i | 0 <= i < |s'.jobs|
      ensures JobInv(s', i)
    {
      assert JobInv(s, i);
      if i != j {
        FrameOtherJob(s, s', k, j, i);
      }
    }
  }

  // --------------------------------------------------- the thread's own job

  /** A thread's step on its popped job: only its scheduler and that job change. */
  ghost predicate JobStep(s: State, s': State, a: Action, k: nat, j: nat) {
    && Bounds(s) && k < |s.scheds| && j < |s.jobs| && s.jobs[j].sched == k
    && k < |s'.scheds| && j < |s'.jobs|
    && JobEffect(s.scheds[k], s.jobs[j], j, a) == Some((s'.scheds[k], s'.jobs[j]))
    && s' == s.(scheds := s.scheds[k := s'.scheds[k]], jobs := s.jobs[j := s'.jobs[j]])
    && InThread(s.jobs[j].phase) && ThreadMatches(s.scheds[k].thread, j, s.jobs[j].phase)
  }

  lemma JobStepFrame(s: State, s': State, a: Action, k: nat, j: nat)
    requires JobStep(s, s', a, k, j)
    ensures Bounds(s') && JobFrame(s, s', k, j)
  {
  }

  lemma JobStepJob(s: State, s': State, a: Action, k: nat, j: nat)
    requires JobStep(s, s', a, k, j) && JobInv(s, j)
    ensures Bounds(s') && JobInv(s', j)
  {
    JobStepFrame(s, s', a, k, j);
    FrameSignals(s, s', k, j);
    if a.RunJob? && a.ok {
      assert s'.scheds[k].ring[|s.scheds[k].ring|] == j;
    }
    assert AllSatisfied(s', j);
  }

  lemma JobStepThread(s: State, s': State, a: Action, k: nat, j: nat)
    requires JobStep(s, s', a, k, j) && ThreadInv(s, k)
    ensures ThreadInv(s', k)
  {
  }

  lemma JobStepCount(s: State, s': State, a: Action, k: nat, j: nat)
    requires JobStep(s, s', a, k, j) && ThreadInv(s, k) && CountInv(s, k)
    ensures CountInv(s', k)
  {
    CountUpdate(s.jobs, j, s'.jobs[j], k);
  }

  /** Everything of the same entity that ever reached a ring was popped before
      the job the thread has in hand. */
  lemma OlderThanInHand(s: State, j: nat, i: nat)
    requires Bounds(s) && j < |s.jobs| && i < |s.jobs| && JobInv(s, j) && JobInv(s, i)
    requires InThread(s.jobs[j].phase) && PastQueue(s.jobs[i].phase) && s.jobs[i].entity == s.jobs[j].entity
    ensures i <= j
  {
  }

  /** What a thread's step does to the jobs, as far as rings are concerned. */
  ghost predicate RingFrame(s: State, s': State) {
    && |s'.jobs| == |s.jobs|
    && forall i :: 0 <= i < |s.jobs| ==>
         && s'.jobs[i].entity == s.jobs[i].entity && s'.jobs[i].sched == s.jobs[i].sched
         && s'.jobs[i].hwDone == s.jobs[i].hwDone && (Ran(s.jobs[i].phase) ==> Ran(s'.jobs[i].phase))
  }

  lemma RingSame(s: State, s': State, k: nat)
    requires k < |s.scheds| == |s'.scheds| && RingInv(s, k) && RingFrame(s, s')
    requires s'.scheds[k].ring == s.scheds[k].ring
    ensures RingInv(s', k)
  {
  }

  lemma RingPlus(s: State, s': State, k: nat, j: nat)
    requires k < |s.scheds| == |s'.scheds| && RingInv(s, k) && RingFrame(s, s')
    requires s'.scheds[k].ring == s.scheds[k].ring + [j] && j < |s.jobs| && s'.jobs[j].sched == k && Ran(s'.jobs[j].phase)
    requires !s.jobs[j].hwDone
    requires forall x :: 0 <= x < |s.scheds[k].ring| ==>
               s.scheds[k].ring[x] != j && (s.jobs[s.scheds[k].ring[x]].entity == s.jobs[j].entity ==> s.scheds[k].ring[x] < j)
    ensures RingInv(s', k)
  {
    var r, r' := s.scheds[k].ring, s'.scheds[k].ring;
    assert forall x :: 0 <= x < |r| ==> r'[x] == r[x];
  }

  lemma JobStepRingFrame(s: State, s': State, a: Action, k: nat, j: nat)
    requires JobStep(s, s', a, k, j) && JobInv(s, j)
    ensures RingFrame(s, s') && k < |s'.scheds| == |s.scheds|
    ensures if a.RunJob? && a.ok
            then s'.scheds[k].ring == s.scheds[k].ring + [j] && !s.jobs[j].hwDone && !Ran(s.jobs[j].phase)
                 && InThread(s.jobs[j].phase) && s'.jobs[j].sched == k && Ran(s'.jobs[j].phase)
            else s'.scheds[k].ring == s.scheds[k].ring
  {
  }

  lemma JobStepRing(s: State, s': State, a: Action, k: nat, j: nat)
    requires JobStep(s, s', a, k, j) && JobInv(s, j) && RingInv(s, k)
    requires forall x :: 0 <= x < |s.scheds[k].ring| && s.scheds[k].ring[x] < |s.jobs| ==> JobInv(s, s.scheds[k].ring[x])
    ensures k < |s'.scheds| && RingInv(s', k)
  {
    JobStepRingFrame(s, s', a, k, j);
    if a.RunJob? && a.ok {
      OlderOnRing(s, k, j);
      RingPlus(s, s', k, j);
    } else {
      RingSame(s, s', k);
    }
  }

  lemma OlderOnRing(s: State, k: nat, j: nat)
    requires Bounds(s) && k < |s.scheds| && RingInv(s, k) && j < |s.jobs| && JobInv(s, j)
    requires InThread(s.jobs[j].phase) && !Ran(s.jobs[j].phase)
    requires forall x :: 0 <= x < |s.scheds[k].ring| && s.scheds[k].ring[x] < |s.jobs| ==> JobInv(s, s.scheds[k].ring[x])
    ensures forall x :: 0 <= x < |s.scheds[k].ring| ==>
              s.scheds[k].ring[x] != j && (s.jobs[s.scheds[k].ring[x]].entity == s.jobs[j].entity ==> s.scheds[k].ring[x] < j)
  {
    var r := s.scheds[k].ring;
    forall x | 0 <= x < |r|
      ensures r[x] != j && (s.jobs[r[x]].entity == s.jobs[j].entity ==> r[x] < j)
    {
      if s.jobs[r[x]].entity == s.jobs[j].entity {
        OlderThanInHand(s, j, r[x]);
      }
    }
  }

  lemma IsJobStep(s: State, a: Action, k: nat)
    requires Bounds(s) && k < |s.scheds| && StepJob(s, a, k).Some? && ThreadInv(s, k)
    ensures JobStep(s, StepJob(s, a, k).value, a, k, s.scheds[k].thread.job)
  {
  }

  /** The job a thread has in hand is the only one of its scheduler in that state. */
  lemma OneInHand(s: State, k: nat, j: nat)
    requires Inv(s) && k < |s.scheds| && InHand(s.scheds[k].thread) && s.scheds[k].thread.job == j
    ensures forall i :: 0 <= i < |s.jobs| && InThread(s.jobs[i].phase) && s.jobs[i].sched == k ==> i == j
  {
    forall i | 0 <= i < |s.jobs| && InThread(s.jobs[i].phase) && s.jobs[i].sched == k
      ensures i == j
    {
      assert JobInv(s, i);
    }
  }

  /** Every step of a scheduler thread on its popped job keeps the invariant. */
  lemma JobStepKeeps(s: State, a: Action, k: nat)
    requires Inv(s) && k < |s.scheds| && StepJob(s, a, k).Some?
    ensures Inv(StepJob(s, a, k).value)
  {
    var s' := StepJob(s, a, k).value;
    var j := s.scheds[k].thread.job;
    assert SchedulerInv(s, k) && JobInv(s, j);
    IsJobStep(s, a, k);
    JobStepFrame(s, s', a, k, j);
    JobStepJob(s, s', a, k, j);
    JobStepThread(s, s', a, k, j);
    JobStepCount(s, s', a, k, j);
    assert RingInv(s, k);
    JobStepRing(s, s', a, k, j);
    OneInHand(s, k, j);
    FrameKeeps(s, s', k, j);
  }

  // --------------------------------------------------- hardware and resets

  ghost predicate RemoteStep(s: State, s': State, a: Action, k: nat, j: nat) {
    && Bounds(s) && k < |s.scheds| && j < |s.jobs| && StepHardware(s, a) == Some(s')
    && SchedulerInv(s, k) && JobInv(s, j)
    && ((a.HwComplete? && a.k == k && a.x < |s.scheds[k].ring| && s.scheds[k].ring[a.x] == j) || a == Detach(k, j))
  }

  lemma RemoteFrame(s: State, s': State, a: Action, k: nat, j: nat)
    requires RemoteStep(s, s', a, k, j)
    ensures Bounds(s') && JobFrame(s, s', k, j) && s'.scheds[k].thread == s.scheds[k].thread
    ensures s'.scheds[k].ring == s.scheds[k].ring
    ensures s'.jobs == s.jobs[j := s'.jobs[j]]
  {
    assert RingInv(s, k);
  }

  lemma RemoteJob(s: State, s': State, a: Action, k: nat, j: nat)
    requires RemoteStep(s, s', a, k, j)
    ensures Bounds(s') && JobInv(s', j)
  {
    RemoteFrame(s, s', a, k, j);
    FrameSignals(s, s', k, j);
    assert RingInv(s, k);
    assert AllSatisfied(s', j);
  }

  lemma RemoteRing(s: State, s': State, a: Action, k: nat, j: nat)
    requires RemoteStep(s, s', a, k, j)
    ensures k < |s'.scheds| && RingInv(s', k)
  {
    RemoteFrame(s, s', a, k, j);
  }

  lemma RemoteCount(s: State, s': State, a: Action, k: nat, j: nat)
    requires RemoteStep(s, s', a, k, j)
    ensures k < |s'.scheds| && CountInv(s', k) && ThreadInv(s', k)
  {
    RemoteFrame(s, s', a, k, j);
    CountUpdate(s.jobs, j, s'.jobs[j], k);
  }

  lemma RemoteScheduler(s: State, s': State, a: Action, k: nat, j: nat)
    requires RemoteStep(s, s', a, k, j)
    ensures k < |s'.scheds| && SchedulerInv(s', k)
  {
    RemoteRing(s, s', a, k, j);
    RemoteCount(s, s', a, k, j);
  }

  lemma ExternalKeeps(s: State, x: nat)
    requires Inv(s)
    ensures Inv(StepHardware(s, SignalExternal(x)).value)
  {
    var s' := StepHardware(s, SignalExternal(x)).value;
    assert forall f :: Signaled(s, f) ==> Signaled(s', f);
    forall e | 0 <= e < |s'.entities|
      ensures EntityInv(s', e)
    {
      assert EntityInv(s, e);
      assert QueueInv(s', e) && LastInv(s', e) && SubInv(s', e);
      assert DepInv(s', e);
    }
    forall q | 0 <= q < |s'.scheds|
      ensures SchedulerInv(s', q)
    {
      assert SchedulerInv(s, q);
      assert ThreadInv(s', q) && RingInv(s', q);
    }
    forall j | 0 <= j < |s'.jobs|
      ensures JobInv(s', j)
    {
      assert JobInv(s, j);
    }
  }

  lemma RemoteKeeps(s: State, a: Action, k: nat, j: nat)
    requires Inv(s) && k < |s.scheds| && j < |s.jobs| && StepHardware(s, a).Some?
    requires (a.HwComplete? && a.k == k && a.x < |s.scheds[k].ring| && s.scheds[k].ring[a.x] == j) || a == Detach(k, j)
    ensures Inv(StepHardware(s, a).value)
  {
    var s' := StepHardware(s, a).value;
    assert SchedulerInv(s, k) && JobInv(s, j);
    RemoteFrame(s, s', a, k, j);
    RemoteJob(s, s', a, k, j);
    RemoteScheduler(s, s', a, k, j);
    FrameKeeps(s, s', k, j);
  }
}
