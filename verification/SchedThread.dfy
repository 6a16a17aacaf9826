/** The scheduler thread's work on a selected entity keeps the invariant. */
module SchedThread {
  import opened Wrappers
  import opened SchedModel
  import opened SchedInv

  /** Premises about the thread's own entity. */
  ghost predicate AtWork(s: State, k: nat, e: nat)
  {
    && Bounds(s) && k < |s.scheds| && e < |s.entities|
    && SchedulerInv(s, k) && EntityInv(s, e)
    && (s.scheds[k].thread.TIdle? || HoldsEntity(s.scheds[k].thread, e))
  }

  /** An entity other than the one thread k works on, when thread k moves on and
      the dependency, last job and queue of e change. */
  lemma OtherEntity(s: State, s': State, k: nat, e: nat, i: nat)
    requires AtWork(s, k, e) && i < |s.entities| && i != e && EntityInv(s, i)
    requires Bounds(s') && |s'.entities| == |s.entities| && |s'.scheds| == |s.scheds| && |s'.jobs| == |s.jobs|
    requires s'.entities[i] == s.entities[i]
    requires forall q :: 0 <= q < |s.scheds| && q != k ==> s'.scheds[q].thread == s.scheds[q].thread
    requires forall g :: !HoldsEntity(s'.scheds[k].thread, g) || g == e
    requires forall f :: Signaled(s', f) == Signaled(s, f)
    requires forall j :: 0 <= j < |s.jobs| ==>
               && s'.jobs[j].entity == s.jobs[j].entity && s'.jobs[j].sched == s.jobs[j].sched
               && s'.jobs[j].finished == s.jobs[j].finished && s'.jobs[j].scheduled == s.jobs[j].scheduled
               && (s.jobs[j].entity == i ==> s'.jobs[j] == s.jobs[j])
    ensures EntityInv(s', i)
  {
    assert QueueInv(s', i);
    assert SubInv(s', i);
    assert LastInv(s', i);
    assert DepInv(s', i);
  }

  /** A job not touched by a step that leaves signals and rings alone. */
  lemma OtherJob(s: State, s': State, j: nat)
    requires Bounds(s) && Bounds(s') && j < |s.jobs| == |s'.jobs| && JobInv(s, j) && s'.jobs[j] == s.jobs[j]
    requires |s'.entities| == |s.entities| && |s'.scheds| == |s.scheds|
    requires forall f :: Signaled(s, f) ==> Signaled(s', f)
    requires forall i :: 0 <= i < |s.jobs| ==>
               && s'.jobs[i].entity == s.jobs[i].entity && s'.jobs[i].sched == s.jobs[i].sched
               && (s.jobs[i].scheduled ==> s'.jobs[i].scheduled)
    requires var e := s.jobs[j].entity;
             && (s.jobs[j].phase.Queued? ==> j in s'.entities[e].queue)
             && (PastQueue(s.jobs[j].phase) && s'.entities[e].lastScheduled != s.entities[e].lastScheduled ==>
                   s'.entities[e].lastScheduled.Some? && j <= s'.entities[e].lastScheduled.value
                   && !InThread(s.jobs[j].phase))
             && (forall q :: q in s'.entities[e].queue ==> q in s.entities[e].queue || j < q)
    requires InThread(s.jobs[j].phase) ==> s'.scheds[s.jobs[j].sched].thread == s.scheds[s.jobs[j].sched].thread
    requires HasFence(s.jobs[j].phase) ==>
               forall r :: r in s.scheds[s.jobs[j].sched].ring ==> r in s'.scheds[s.jobs[j].sched].ring
    ensures JobInv(s', j)
  {
    var e := s.jobs[j].entity;
    forall x | 0 <= x < |s'.entities[e].queue| && PastQueue(s.jobs[j].phase)
      ensures j < s'.entities[e].queue[x]
    {
      assert s'.entities[e].queue[x] in s'.entities[e].queue;
    }
  }

  /** The entity an action of thread k is about. */
  function Worked(s: State, a: Action, k: nat): nat
    requires k < |s.scheds|
  {
    if a.Select? then a.e
    else match s.scheds[k].thread
         case TSelected(e) => e
         case TDep(e, _) => e
         case TReady(e) => e
         case TStored(e) => e
         case _ => 0
  }

  /** An enabled step of thread k on its entity, and what is known about both. */
  ghost predicate EntityStep(s: State, s': State, a: Action, k: nat) {
    && k < |s.scheds| && StepEntity(s, a, k) == Some(s')
    && AtWork(s, k, Worked(s, a, k))
  }

  lemma SelectedSelf(s: State, s': State, a: Action, k: nat)
    requires EntityStep(s, s', a, k) && (a.Select? || (a.AskDep? && a.f.None?))
    ensures Bounds(s') && EntityInv(s', Worked(s, a, k))
  {
    var e := Worked(s, a, k);
    assert forall f :: Signaled(s', f) == Signaled(s, f);
    assert QueueInv(s', e) && SubInv(s', e) && LastInv(s', e);
    assert DepInv(s', e);
  }

  lemma AskedSelf(s: State, s': State, k: nat, f: FenceRef)
    requires k < |s.scheds| && s.scheds[k].thread.TSelected? && AtWork(s, k, s.scheds[k].thread.e)
    requires StepEntity(s, AskDep(k, Some(f)), k) == Some(s')
    ensures Bounds(s') && EntityInv(s', s.scheds[k].thread.e)
  {
    var e := s.scheds[k].thread.e;
    assert forall g :: Signaled(s', g) == Signaled(s, g);
    assert QueueInv(s', e);
    assert SubInv(s', e) && LastInv(s', e);
    var h := s.entities[e].queue[0];
    forall g | g in s'.jobs[h].handed
      ensures Satisfied(s', h, g) || Awaited(s', e, g)
    {
      if g != f {
        assert g in s.jobs[h].handed;
        assert !Awaited(s, e, g);
      }
    }
    assert DepInv(s', e);
  }

  /** All that adding the callback changes: the entity's dependency and the thread. */
  ghost predicate OnlyDep(s: State, s': State, k: nat, e: nat) {
    && k < |s.scheds| == |s'.scheds| && e < |s.entities| == |s'.entities| && s'.jobs == s.jobs && s'.external == s.external
    && s'.entities == s.entities[e := s.entities[e].(dep := s'.entities[e].dep)]
    && s'.scheds == s.scheds[k := s.scheds[k].(thread := s'.scheds[k].thread)]
  }

  lemma CallbackFrame(s: State, s': State, k: nat)
    requires k < |s.scheds| && s.scheds[k].thread.TDep? && AtWork(s, k, s.scheds[k].thread.e)
    requires StepEntity(s, AddCallback(k), k) == Some(s')
    ensures OnlyDep(s, s', k, s.scheds[k].thread.e)
    ensures var e, f, t' := s.scheds[k].thread.e, s.scheds[k].thread.f, s'.scheds[k].thread;
            && (t' == TIdle || t' == TSelected(e))
            && (t' == TIdle ==> s'.entities[e].dep.WaitingOn? && WaitsFor(s, s.entities[e].rq, f, s'.entities[e].dep.on))
            && (t' == TSelected(e) ==>
                  s'.entities[e].dep.Transient? && Satisfied(s, s.entities[e].queue[0], f))
  {
    assert QueueInv(s, s.scheds[k].thread.e);
  }

  lemma OnlyDepKeeps(s: State, s': State, k: nat, e: nat)
    requires AtWork(s, k, e) && OnlyDep(s, s', k, e) && s.scheds[k].thread.TDep?
    ensures Bounds(s') && QueueInv(s', e) && SubInv(s', e) && LastInv(s', e)
    ensures forall g :: Signaled(s', g) == Signaled(s, g)
  {
  }

  lemma CallbackDep(s: State, s': State, k: nat, e: nat)
    requires AtWork(s, k, e) && OnlyDep(s, s', k, e) && s.scheds[k].thread.TDep? && s.scheds[k].thread.e == e
    requires Bounds(s') && forall g :: Signaled(s', g) == Signaled(s, g)
    requires var f, t' := s.scheds[k].thread.f, s'.scheds[k].thread;
             && (t' == TIdle || t' == TSelected(e))
             && (t' == TIdle ==> s'.entities[e].dep.WaitingOn? && WaitsFor(s, s.entities[e].rq, f, s'.entities[e].dep.on))
             && (t' == TSelected(e) ==> s'.entities[e].dep.Transient? && Satisfied(s, s.entities[e].queue[0], f))
    ensures DepInv(s', e)
  {
    var f := s.scheds[k].thread.f;
    var h := s.entities[e].queue[0];
    if h < |s.jobs| {
      forall g | g in s'.jobs[h].handed
        ensures Satisfied(s', h, g) || Awaited(s', e, g)
      {
        assert Satisfied(s, h, g) || Awaited(s, e, g);
        assert Awaited(s, e, g) ==> g == f;
      }
    }
  }

  lemma CallbackSelf(s: State, s': State, k: nat)
    requires k < |s.scheds| && s.scheds[k].thread.TDep? && AtWork(s, k, s.scheds[k].thread.e)
    requires StepEntity(s, AddCallback(k), k) == Some(s')
    ensures Bounds(s') && EntityInv(s', s.scheds[k].thread.e)
  {
    var e := s.scheds[k].thread.e;
    CallbackFrame(s, s', k);
    OnlyDepKeeps(s, s', k, e);
    CallbackDep(s, s', k, e);
  }

  lemma StoredSelf(s: State, s': State, k: nat)
    requires k < |s.scheds| && s.scheds[k].thread.TReady? && AtWork(s, k, s.scheds[k].thread.e)
    requires StepEntity(s, StoreLast(k), k) == Some(s')
    ensures Bounds(s') && EntityInv(s', s.scheds[k].thread.e)
  {
    var e := s.scheds[k].thread.e;
    assert forall g :: Signaled(s', g) == Signaled(s, g);
    assert QueueInv(s', e);
    assert SubInv(s', e) && LastInv(s', e);
    assert DepInv(s', e);
  }

  lemma PoppedSelf(s: State, s': State, k: nat)
    requires k < |s.scheds| && s.scheds[k].thread.TStored? && AtWork(s, k, s.scheds[k].thread.e)
    requires StepEntity(s, Pop(k), k) == Some(s')
    ensures Bounds(s') && EntityInv(s', s.scheds[k].thread.e)
  {
    var e := s.scheds[k].thread.e;
    assert forall g :: Signaled(s', g) == Signaled(s, g);
    var n, n' := s.entities[e], s'.entities[e];
    assert forall x :: 0 <= x < |n'.queue| ==> n'.queue[x] == n.queue[x + 1];
    assert QueueInv(s', e);
    assert SubInv(s', e);
    assert LastInv(s', e);
    assert DepInv(s', e);
  }

  lemma PoppedJob(s: State, s': State, k: nat)
    requires k < |s.scheds| && s.scheds[k].thread.TStored? && AtWork(s, k, s.scheds[k].thread.e)
    requires StepEntity(s, Pop(k), k) == Some(s') && Bounds(s')
    requires JobInv(s, s.entities[s.scheds[k].thread.e].queue[0])
    ensures JobInv(s', s.entities[s.scheds[k].thread.e].queue[0])
  {
    var e := s.scheds[k].thread.e;
    var n, h := s.entities[e], s.entities[e].queue[0];
    assert forall g :: Signaled(s', g) == Signaled(s, g);
    forall f | f in s'.jobs[h].handed
      ensures Satisfied(s', h, f)
    {
      assert Satisfied(s, h, f) || Awaited(s, e, f);
    }
    assert forall x :: 0 <= x < |s'.entities[e].queue| ==> s'.entities[e].queue[x] == n.queue[x + 1];
  }

  lemma StepSelf(s: State, s': State, a: Action, k: nat)
    requires EntityStep(s, s', a, k)
    ensures Bounds(s') && EntityInv(s', Worked(s, a, k))
  {
    match a {
      case Select(_, _) => SelectedSelf(s, s', a, k);
      case AskDep(_, f) =>
        if f.None? {
          SelectedSelf(s, s', a, k);
        } else {
          AskedSelf(s, s', k, f.value);
        }
      case AddCallback(_) => CallbackSelf(s, s', k);
      case StoreLast(_) => StoredSelf(s, s', k);
      case Pop(_) => PoppedSelf(s, s', k);
      case _ =>
    }
  }

  /** What a step on entity e by thread k leaves alone. */
  ghost predicate Frame(s: State, s': State, k: nat, e: nat, h: nat) {
    && |s'.entities| == |s.entities| && |s'.scheds| == |s.scheds| && |s'.jobs| == |s.jobs|
    && s'.limit == s.limit && s'.external == s.external
    && k < |s.scheds| && e < |s.entities| && h < |s.jobs|
    && (forall i :: 0 <= i < |s.entities| && i != e ==> s'.entities[i] == s.entities[i])
    && s'.entities[e].rq == s.entities[e].rq
    && (forall q :: 0 <= q < |s.scheds| ==>
          s'.scheds[q].ring == s.scheds[q].ring && s'.scheds[q].hwRqCount == s.scheds[q].hwRqCount
          && (q != k ==> s'.scheds[q].thread == s.scheds[q].thread))
    && (forall j :: 0 <= j < |s.jobs| && j != h ==> s'.jobs[j] == s.jobs[j])
    && s'.jobs[h] == s.jobs[h].(phase := s'.jobs[h].phase, handed := s'.jobs[h].handed)
    && s.jobs[h].entity == e && s.jobs[h].phase.Queued? && (s'.jobs[h].phase.Queued? || s'.jobs[h].phase.Popped?)
  }

  lemma StepFrame(s: State, s': State, a: Action, k: nat)
    requires EntityStep(s, s', a, k)
    ensures var e := Worked(s, a, k);
            && e < |s.entities| && s.entities[e].queue != [] && s.entities[e].rq == k
            && Frame(s, s', k, e, s.entities[e].queue[0])
            && (forall g :: !HoldsEntity(s'.scheds[k].thread, g) || g == e)
            && (s.scheds[k].thread.TIdle? || HoldsEntity(s.scheds[k].thread, e))
  {
    assert QueueInv(s, Worked(s, a, k));
  }

  lemma FrameSignaled(s: State, s': State, k: nat, e: nat, h: nat)
    requires Frame(s, s', k, e, h) && Bounds(s)
    ensures Bounds(s') && forall f :: Signaled(s', f) == Signaled(s, f)
  {
  }

  lemma StepOtherEntity(s: State, s': State, a: Action, k: nat, i: nat)
    requires EntityStep(s, s', a, k) && i < |s.entities| && i != Worked(s, a, k) && EntityInv(s, i)
    ensures Bounds(s') && EntityInv(s', i)
  {
    StepFrame(s, s', a, k);
    var e := Worked(s, a, k);
    FrameOtherEntity(s, s', k, e, s.entities[e].queue[0], i);
  }

  lemma FrameOtherEntity(s: State, s': State, k: nat, e: nat, h: nat, i: nat)
    requires AtWork(s, k, e) && Frame(s, s', k, e, h) && i < |s.entities| && i != e && EntityInv(s, i)
    requires forall g :: !HoldsEntity(s'.scheds[k].thread, g) || g == e
    ensures Bounds(s') && EntityInv(s', i)
  {
    FrameSignaled(s, s', k, e, h);
    OtherEntity(s, s', k, e, i);
  }

  lemma FrameCounts(s: State, s': State, k: nat, e: nat, h: nat, q: nat)
    requires Frame(s, s', k, e, h) && q < |s.scheds|
    ensures CountInFlight(s'.jobs, q) == CountInFlight(s.jobs, q)
  {
    CountUpdate(s.jobs, h, s'.jobs[h], q);
    assert s'.jobs == s.jobs[h := s'.jobs[h]];
  }

  lemma FrameRing(s: State, s': State, k: nat, e: nat, h: nat, q: nat)
    requires Frame(s, s', k, e, h) && q < |s.scheds| && RingInv(s, q)
    ensures RingInv(s', q)
  {
  }

  lemma StepOwnThread(s: State, s': State, a: Action, k: nat)
    requires EntityStep(s, s', a, k)
    ensures k < |s'.scheds| && ThreadInv(s', k)
  {
    assert QueueInv(s, Worked(s, a, k));
  }

  lemma FrameOtherThread(s: State, s': State, k: nat, e: nat, h: nat, q: nat)
    requires Frame(s, s', k, e, h) && s.entities[e].rq == k && q < |s.scheds| && q != k && ThreadInv(s, q)
    ensures ThreadInv(s', q)
  {
  }

  lemma StepScheduler(s: State, s': State, a: Action, k: nat, q: nat)
    requires EntityStep(s, s', a, k) && q < |s.scheds| && SchedulerInv(s, q)
    ensures q < |s'.scheds| && SchedulerInv(s', q)
  {
    StepFrame(s, s', a, k);
    var e := Worked(s, a, k);
    var h := s.entities[e].queue[0];
    FrameCounts(s, s', k, e, h, q);
    FrameRing(s, s', k, e, h, q);
    if q == k {
      StepOwnThread(s, s', a, k);
    } else {
      FrameOtherThread(s, s', k, e, h, q);
    }
  }

  /** The queue and last job of the worked entity, as far as other jobs see them. */
  lemma StepQueue(s: State, s': State, a: Action, k: nat, j: nat)
    requires EntityStep(s, s', a, k) && Worked(s, a, k) < |s.entities| && s.entities[Worked(s, a, k)].queue != []
    requires j != s.entities[Worked(s, a, k)].queue[0]
    ensures Worked(s, a, k) < |s'.entities|
    ensures var e := Worked(s, a, k);
            && (j in s.entities[e].queue ==> j in s'.entities[e].queue)
            && (forall q :: q in s'.entities[e].queue ==> q in s.entities[e].queue)
            && (s'.entities[e].lastScheduled == s.entities[e].lastScheduled ||
                (s.scheds[k].thread == TReady(e) && s'.entities[e].lastScheduled == Some(s.entities[e].queue[0])))
  {
    var e := Worked(s, a, k);
    var n, n' := s.entities[e], s'.entities[e];
    if a.Pop? {
      assert n.queue == [n.queue[0]] + n'.queue;
    }
  }

  /** Job j, when it is not the head of the worked entity's queue. */
  lemma StepOtherJob(s: State, s': State, a: Action, k: nat, j: nat)
    requires EntityStep(s, s', a, k) && j < |s.jobs| && JobInv(s, j)
    requires Worked(s, a, k) < |s.entities| && s.entities[Worked(s, a, k)].queue != []
    requires j != s.entities[Worked(s, a, k)].queue[0]
    ensures Bounds(s') && JobInv(s', j)
  {
    StepFrame(s, s', a, k);
    StepQueue(s, s', a, k, j);
    StepThread(s, s', a, k);
    var e := Worked(s, a, k);
    FrameOtherJob(s, s', k, e, s.entities[e].queue[0], j);
  }

  /** While it works on an entity, a thread has no popped job in hand. */
  lemma StepThread(s: State, s': State, a: Action, k: nat)
    requires EntityStep(s, s', a, k)
    ensures s.scheds[k].thread.TIdle? || HoldsEntity(s.scheds[k].thread, Worked(s, a, k))
  {
  }

  lemma FrameOtherJob(s: State, s': State, k: nat, e: nat, h: nat, j: nat)
    requires Bounds(s) && Frame(s, s', k, e, h) && j < |s.jobs| && j != h && JobInv(s, j) && LastInv(s, e)
    requires s.entities[e].rq == k && (s.scheds[k].thread.TIdle? || HoldsEntity(s.scheds[k].thread, e))
    requires s.entities[e].queue != [] && s.entities[e].queue[0] == h
    requires && (j in s.entities[e].queue ==> j in s'.entities[e].queue)
             && (forall q :: q in s'.entities[e].queue ==> q in s.entities[e].queue)
             && (s'.entities[e].lastScheduled == s.entities[e].lastScheduled ||
                 (s.scheds[k].thread == TReady(e) && s'.entities[e].lastScheduled == Some(h)))
    ensures Bounds(s') && JobInv(s', j)
  {
    FrameSignaled(s, s', k, e, h);
    OtherJob(s, s', j);
  }

  lemma StepHeadJob(s: State, s': State, a: Action, k: nat)
    requires EntityStep(s, s', a, k)
    requires Worked(s, a, k) < |s.entities| && s.entities[Worked(s, a, k)].queue != []
    requires s.entities[Worked(s, a, k)].queue[0] < |s.jobs| && JobInv(s, s.entities[Worked(s, a, k)].queue[0])
    ensures Bounds(s') && JobInv(s', s.entities[Worked(s, a, k)].queue[0])
  {
    StepFrame(s, s', a, k);
    if a.Pop? {
      PoppedJob(s, s', k);
    } else {
      assert s'.entities[Worked(s, a, k)].queue == s.entities[Worked(s, a, k)].queue;
    }
  }

  /** Every step of a scheduler thread on an entity keeps the invariant. */
  lemma EntityStepKeeps(s: State, a: Action, k: nat)
    requires Inv(s) && k < |s.scheds| && StepEntity(s, a, k).Some?
    ensures Inv(StepEntity(s, a, k).value)
  {
    var s' := StepEntity(s, a, k).value;
    var e := Worked(s, a, k);
    assert SchedulerInv(s, k);
    assert e < |s.entities| && EntityInv(s, e);
    assert EntityStep(s, s', a, k);
    StepSelf(s, s', a, k);
    var h := s.entities[e].queue[0];
    forall i | 0 <= i < |s'.entities|
      ensures EntityInv(s', i)
    {
      assert EntityInv(s, i);
      if i != e {
        StepOtherEntity(s, s', a, k, i);
      }
    }
    forall q | 0 <= q < |s'.scheds|
      ensures SchedulerInv(s', q)
    {
      assert SchedulerInv(s, q);
      StepScheduler(s, s', a, k, q);
    }
    forall j | 0 <= j < |s'.jobs|
      ensures JobInv(s', j)
    {
      assert JobInv(s, j);
      if j == h {
        StepHeadJob(s, s', a, k);
      } else {
        StepOtherJob(s, s', a, k, j);
      }
    }
  }

  /** Clearing a signaled dependency of entity e. */
  ghost predicate Cleared(s: State, s': State, e: nat) {
    && Bounds(s) && e < |s.entities| && s.entities[e].dep.WaitingOn? && Signaled(s, s.entities[e].dep.on)
    && s' == s.(entities := s.entities[e := s.entities[e].(dep := NoDep)])
  }

  lemma ClearedEntity(s: State, s': State, e: nat, i: nat)
    requires Cleared(s, s', e) && i < |s.entities| && EntityInv(s, i)
    ensures Bounds(s') && EntityInv(s', i)
  {
    assert forall g :: Signaled(s', g) == Signaled(s, g);
    assert QueueInv(s', i) && SubInv(s', i) && LastInv(s', i);
    assert DepInv(s', i);
  }

  lemma ClearedScheduler(s: State, s': State, e: nat, q: nat)
    requires Cleared(s, s', e) && EntityInv(s, e) && q < |s.scheds| && SchedulerInv(s, q)
    ensures SchedulerInv(s', q)
  {
  }

  lemma ClearedJob(s: State, s': State, e: nat, j: nat)
    requires Cleared(s, s', e) && j < |s.jobs| && JobInv(s, j)
    ensures Bounds(s') && JobInv(s', j)
  {
    assert forall g :: Signaled(s', g) == Signaled(s, g);
    OtherJob(s, s', j);
  }

  lemma ClearDepKeeps(s: State, e: nat)
    requires Inv(s) && StepHardware(s, ClearDep(e)).Some?
    ensures Inv(StepHardware(s, ClearDep(e)).value)
  {
    var s' := StepHardware(s, ClearDep(e)).value;
    assert Cleared(s, s', e) && EntityInv(s, e);
    forall i | 0 <= i < |s'.entities|
      ensures EntityInv(s', i)
    {
      ClearedEntity(s, s', e, i);
    }
    forall q | 0 <= q < |s'.scheds|
      ensures SchedulerInv(s', q)
    {
      ClearedScheduler(s, s', e, q);
    }
    forall j | 0 <= j < |s'.jobs|
      ensures JobInv(s', j)
    {
      ClearedJob(s, s', e, j);
    }
  }
}
