/** The submitter's steps keep the scheduler invariant. */
module SchedSubmit {
  import opened Wrappers
  import opened SchedModel
  import opened SchedInv

  /** Entity e changed at most in its submitter state and, with an empty queue, its run queue. */
  ghost predicate SubFrame(s: State, s': State, e: nat) {
    && Bounds(s) && e < |s.entities| == |s'.entities| && s' == s.(entities := s.entities[e := s'.entities[e]])
    && s'.entities[e] == s.entities[e].(sub := s'.entities[e].sub, rq := s'.entities[e].rq)
    && s'.entities[e].rq < |s.scheds|
    && (s'.entities[e].rq != s.entities[e].rq ==> s.entities[e].queue == [] && !HoldsEntity(s.scheds[s.entities[e].rq].thread, e))
  }

  lemma SubFrameEntity(s: State, s': State, e: nat, i: nat)
    requires SubFrame(s, s', e) && i < |s.entities| && i != e && EntityInv(s, i)
    ensures Bounds(s') && EntityInv(s', i)
  {
  }

  lemma SubFrameScheduler(s: State, s': State, e: nat, k: nat)
    requires SubFrame(s, s', e) && k < |s.scheds| && SchedulerInv(s, k)
    ensures SchedulerInv(s', k)
  {
  }

  lemma SubFrameJob(s: State, s': State, e: nat, j: nat)
    requires SubFrame(s, s', e) && j < |s.jobs| && JobInv(s, j)
    ensures Bounds(s') && JobInv(s', j)
  {
  }

  lemma SubFrameKeeps(s: State, s': State, e: nat)
    requires Inv(s) && SubFrame(s, s', e) && Bounds(s') && EntityInv(s', e)
    ensures Inv(s')
  {
    forall i | 0 <= i < |s'.entities|
      ensures EntityInv(s', i)
    {
      if i != e {
        SubFrameEntity(s, s', e, i);
      }
    }
    forall k | 0 <= k < |s'.scheds|
      ensures SchedulerInv(s', k)
    {
      SubFrameScheduler(s, s', e, k);
    }
    forall j | 0 <= j < |s'.jobs|
      ensures JobInv(s', j)
    {
      SubFrameJob(s, s', e, j);
    }
  }

  /** A step that changes one entity's submitter state only. */
  lemma SubStateOnly(s: State, e: nat, pc: SubPc)
    requires Inv(s) && e < |s.entities|
    requires SubInv(WithEntity(s, e, s.entities[e].(sub := pc)), e)
    ensures Inv(WithEntity(s, e, s.entities[e].(sub := pc)))
  {
    var s' := WithEntity(s, e, s.entities[e].(sub := pc));
    assert EntityInv(s, e);
    SubFrameKeeps(s, s', e);
  }

  /** Moving an entity: its queue is empty and its newest popped job has
      finished, so nothing of it depends on where it is. */
  lemma MoveKeeps(s: State, e: nat, to: nat)
    requires Inv(s) && e < |s.entities| && s.entities[e].sub.MayMove? && to < |s.scheds|
    ensures Inv(WithEntity(s, e, s.entities[e].(rq := to, sub := Decided)))
  {
    var s' := WithEntity(s, e, s.entities[e].(rq := to, sub := Decided));
    assert EntityInv(s, e) && SchedulerInv(s, s.entities[e].rq);
    MovedEntity(s, s', e);
    SubFrameKeeps(s, s', e);
  }

  lemma MovedEntity(s: State, s': State, e: nat)
    requires Bounds(s) && e < |s.entities| && EntityInv(s, e) && ThreadInv(s, s.entities[e].rq)
    requires s.entities[e].sub.MayMove? && e < |s'.entities| && s'.entities[e].rq < |s.scheds|
    requires s' == WithEntity(s, e, s.entities[e].(rq := s'.entities[e].rq, sub := Decided))
    ensures SubFrame(s, s', e) && Bounds(s') && EntityInv(s', e)
  {
  }

  /** Entity e has a new job, created and not yet pushed. */
  ghost predicate Inits(s: State, s': State, e: nat) {
    && Bounds(s) && e < |s.entities| && s.entities[e].sub.Decided?
    && s' == s.(entities := s.entities[e := s.entities[e].(sub := Inited(|s.jobs|))],
                jobs := s.jobs + [Job(e, s.entities[e].rq, Created, false, false, false, {})])
  }

  lemma InitsSignals(s: State, s': State, e: nat)
    requires Inits(s, s', e)
    ensures Bounds(s') && (forall f :: Signaled(s, f) ==> Signaled(s', f))
    ensures forall j :: 0 <= j < |s.jobs| ==> s'.jobs[j] == s.jobs[j]
  {
  }

  lemma InitsQueue(s: State, s': State, e: nat, i: nat)
    requires Inits(s, s', e) && i < |s.entities| && QueueInv(s, i) && LastInv(s, i) && SubInv(s, i)
    ensures Bounds(s') && QueueInv(s', i) && LastInv(s', i) && SubInv(s', i)
  {
    InitsSignals(s, s', e);
  }

  lemma InitsDep(s: State, s': State, e: nat, i: nat)
    requires Inits(s, s', e) && i < |s.entities| && QueueInv(s, i) && DepInv(s, i)
    ensures Bounds(s') && DepInv(s', i)
  {
    InitsSignals(s, s', e);
    var n := s.entities[i];
    if n.queue != [] {
      var h := n.queue[0];
      forall f | f in s'.jobs[h].handed
        ensures Satisfied(s', h, f) || Awaited(s', i, f)
      {
        assert Satisfied(s, h, f) || Awaited(s, i, f);
      }
    }
  }

  lemma InitsScheduler(s: State, s': State, e: nat, k: nat)
    requires Inits(s, s', e) && k < |s.scheds| && SchedulerInv(s, k)
    ensures SchedulerInv(s', k)
  {
    InitsSignals(s, s', e);
    CountAppend(s.jobs, s'.jobs[|s.jobs|], k);
    InitsRing(s, s', e, k);
    InitsThread(s, s', e, k);
  }

  lemma InitsRing(s: State, s': State, e: nat, k: nat)
    requires Inits(s, s', e) && k < |s.scheds| && RingInv(s, k)
    ensures RingInv(s', k)
  {
    InitsSignals(s, s', e);
  }

  lemma InitsThread(s: State, s': State, e: nat, k: nat)
    requires Inits(s, s', e) && k < |s.scheds| && ThreadInv(s, k)
    ensures ThreadInv(s', k)
  {
    InitsSignals(s, s', e);
  }

  lemma InitsJob(s: State, s': State, e: nat, j: nat)
    requires Inits(s, s', e) && j < |s.jobs| && JobInv(s, j)
    ensures Bounds(s') && JobInv(s', j)
  {
    InitsSignals(s, s', e);
  }

  lemma InitJobKeeps(s: State, e: nat)
    requires Inv(s) && e < |s.entities| && s.entities[e].sub.Decided?
    ensures Inv(StepSubmitter(s, SubInit(e), e).value)
  {
    var s' := StepSubmitter(s, SubInit(e), e).value;
    assert Inits(s, s', e);
    InitsSignals(s, s', e);
    forall i | 0 <= i < |s'.entities|
      ensures EntityInv(s', i)
    {
      assert EntityInv(s, i);
      InitsQueue(s, s', e, i);
      InitsDep(s, s', e, i);
    }
    forall k | 0 <= k < |s'.scheds|
      ensures SchedulerInv(s', k)
    {
      InitsScheduler(s, s', e, k);
    }
    forall j | 0 <= j < |s'.jobs|
      ensures JobInv(s', j)
    {
      if j < |s.jobs| {
        InitsJob(s, s', e, j);
      }
    }
  }

  /** The state after a push. */
  ghost function Pushed(s: State, e: nat): State
    requires e < |s.entities| && s.entities[e].sub.Inited? && s.entities[e].sub.job < |s.jobs|
  {
    var n := s.entities[e];
    var j := n.sub.job;
    WithJob(WithEntity(s, e, n.(queue := n.queue + [j], sub := SubIdle)), j, s.jobs[j].(phase := Queued))
  }

  lemma PushedFrame(s: State, e: nat)
    requires Bounds(s) && e < |s.entities| && s.entities[e].sub.Inited? && SubInv(s, e)
    ensures var j := s.entities[e].sub.job;
            && j < |s.jobs| && s.jobs[j].phase.Created? && s.jobs[j].entity == e && Bounds(Pushed(s, e))
            && (forall i :: 0 <= i < |s.jobs| && i != j ==> Pushed(s, e).jobs[i] == s.jobs[i])
            && Pushed(s, e).jobs[j] == s.jobs[j].(phase := Queued)
    ensures forall f :: Signaled(Pushed(s, e), f) == Signaled(s, f)
  {
  }

  lemma PushedOther(s: State, e: nat, i: nat)
    requires Bounds(s) && e < |s.entities| && s.entities[e].sub.Inited? && i < |s.entities| && i != e
    requires SubInv(s, e) && EntityInv(s, i)
    ensures s.entities[e].sub.job < |s.jobs| && Bounds(Pushed(s, e)) && EntityInv(Pushed(s, e), i)
  {
    PushedFrame(s, e);
    PushedOtherQueue(s, e, i);
    PushedOtherDep(s, e, i);
  }

  lemma PushedOtherQueue(s: State, e: nat, i: nat)
    requires Bounds(s) && e < |s.entities| && s.entities[e].sub.Inited? && i < |s.entities| && i != e
    requires SubInv(s, e) && QueueInv(s, i) && LastInv(s, i) && SubInv(s, i)
    ensures s.entities[e].sub.job < |s.jobs| && Bounds(Pushed(s, e))
    ensures QueueInv(Pushed(s, e), i) && LastInv(Pushed(s, e), i) && SubInv(Pushed(s, e), i)
  {
    PushedFrame(s, e);
  }

  lemma PushedOtherDep(s: State, e: nat, i: nat)
    requires Bounds(s) && e < |s.entities| && s.entities[e].sub.Inited? && i < |s.entities| && i != e
    requires SubInv(s, e) && QueueInv(s, i) && DepInv(s, i)
    ensures s.entities[e].sub.job < |s.jobs| && Bounds(Pushed(s, e)) && DepInv(Pushed(s, e), i)
  {
    PushedFrame(s, e);
  }

  lemma PushedSelf(s: State, e: nat)
    requires Bounds(s) && e < |s.entities| && s.entities[e].sub.Inited? && EntityInv(s, e)
    requires JobInv(s, s.entities[e].sub.job)
    ensures s.entities[e].sub.job < |s.jobs| && Bounds(Pushed(s, e)) && EntityInv(Pushed(s, e), e)
  {
    var s' := Pushed(s, e);
    var j := s.entities[e].sub.job;
    assert forall f :: Signaled(s', f) == Signaled(s, f);
    assert QueueInv(s', e) by {
      assert forall x :: 0 <= x < |s.entities[e].queue| ==> s.entities[e].queue[x] < j;
      assert s'.jobs[j].handed == {};
    }
    assert LastInv(s', e) && SubInv(s', e);
    assert DepInv(s', e);
  }

  lemma PushedScheduler(s: State, e: nat, k: nat)
    requires Bounds(s) && e < |s.entities| && s.entities[e].sub.Inited? && k < |s.scheds|
    requires SubInv(s, e) && SchedulerInv(s, k)
    ensures s.entities[e].sub.job < |s.jobs| && SchedulerInv(Pushed(s, e), k)
  {
    var j := s.entities[e].sub.job;
    PushedFrame(s, e);
    CountUpdate(s.jobs, j, s.jobs[j].(phase := Queued), k);
    PushedRing(s, e, k);
    PushedThread(s, e, k);
  }

  lemma PushedRing(s: State, e: nat, k: nat)
    requires Bounds(s) && e < |s.entities| && s.entities[e].sub.Inited? && k < |s.scheds| && SubInv(s, e) && RingInv(s, k)
    ensures s.entities[e].sub.job < |s.jobs| && RingInv(Pushed(s, e), k)
  {
    PushedFrame(s, e);
  }

  lemma PushedThread(s: State, e: nat, k: nat)
    requires Bounds(s) && e < |s.entities| && s.entities[e].sub.Inited? && k < |s.scheds| && SubInv(s, e) && ThreadInv(s, k)
    ensures s.entities[e].sub.job < |s.jobs| && ThreadInv(Pushed(s, e), k)
  {
    PushedFrame(s, e);
  }

  lemma PushedJob(s: State, e: nat, i: nat)
    requires Bounds(s) && e < |s.entities| && s.entities[e].sub.Inited? && i < |s.jobs|
    requires EntityInv(s, e) && JobInv(s, i)
    ensures s.entities[e].sub.job < |s.jobs| && Bounds(Pushed(s, e)) && JobInv(Pushed(s, e), i)
  {
    var s' := Pushed(s, e);
    assert forall f :: Signaled(s', f) == Signaled(s, f);
    assert s'.entities[e].queue[|s.entities[e].queue|] == s.entities[e].sub.job;
  }

  lemma PushKeeps(s: State, e: nat)
    requires Inv(s) && e < |s.entities| && s.entities[e].sub.Inited?
    ensures StepSubmitter(s, SubPush(e), e).Some?
    ensures Inv(StepSubmitter(s, SubPush(e), e).value)
  {
    assert EntityInv(s, e) && JobInv(s, s.entities[e].sub.job);
    PushedSelf(s, e);
    var s' := Pushed(s, e);
    forall i | 0 <= i < |s.entities|
      ensures EntityInv(s', i)
    {
      if i != e {
        PushedOther(s, e, i);
      }
    }
    forall k | 0 <= k < |s.scheds|
      ensures SchedulerInv(s', k)
    {
      PushedScheduler(s, e, k);
    }
    forall i | 0 <= i < |s.jobs|
      ensures JobInv(s', i)
    {
      PushedJob(s, e, i);
    }
  }

  lemma SubmitterKeeps(s: State, a: Action, e: nat)
    requires Inv(s) && e < |s.entities| && StepSubmitter(s, a, e).Some?
    ensures Inv(StepSubmitter(s, a, e).value)
  {
    assert EntityInv(s, e);
    var n := s.entities[e];
    match a {
      case SubCheckQueue(_) =>
        SubStateOnly(s, e, if n.queue == [] && n.movable then SawEmpty else Decided);
      case SubReadLast(_) =>
        SubStateOnly(s, e, SawFence(n.lastScheduled));
      case SubTest(_) =>
        SubStateOnly(s, e, if n.sub.f.Some? && !Signaled(s, OfJob(n.sub.f.value, true)) then Decided else MayMove);
      case SubAbort(_) =>
        SubStateOnly(s, e, SubIdle);
      case SubMove(_, to) => MoveKeeps(s, e, to);
      case SubInit(_) => InitJobKeeps(s, e);
      case SubPush(_) => PushKeeps(s, e);
      case _ =>
    }
  }
}
