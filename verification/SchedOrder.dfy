/** In which order the jobs of one entity finish, across scheduler changes. */
module SchedOrder {
  import opened Wrappers
  import opened SchedModel
  import opened SchedInv
  import SchedThread
  import opened SchedMain

  predicate Done(b: Job) {
    b.phase.Finished? || b.phase.Detached?
  }

  /** Jobs of an entity finish in push order: once a job has finished, every job
      pushed before it has finished, or was detached by a reset. */
  ghost predicate Ordered(s: State) {
    forall i: nat, j: nat ::
      (i < j && Pushed(s, i) && Pushed(s, j) && s.jobs[i].entity == s.jobs[j].entity && s.jobs[j].finished)
      ==> Done(s.jobs[i])
  }

  /** Whatever an entity left on another scheduler is done. */
  ghost predicate LeftNothing(s: State) {
    && (forall j :: 0 <= j < |s.jobs| ==> s.jobs[j].entity < |s.entities|)
    && (forall j :: 0 <= j < |s.jobs| ==>
          (PastQueue(s.jobs[j].phase) && s.jobs[j].sched != s.entities[s.jobs[j].entity].rq) ==> Done(s.jobs[j]))
    && (forall i, j :: 0 <= i < j < |s.jobs| ==>
          (PastQueue(s.jobs[i].phase) && PastQueue(s.jobs[j].phase)
           && s.jobs[i].entity == s.jobs[j].entity && s.jobs[i].sched != s.jobs[j].sched) ==> Done(s.jobs[i]))
  }

  /** run_job returned no fence for a job while an earlier job of its entity is
      still under way, and the job is about to be processed for that. */
  ghost predicate NullEarly(s: State, a: Action) {
    a.Attach? && a.k < |s.scheds| && s.scheds[a.k].thread.TAnnounced? &&
    var j := s.scheds[a.k].thread.job;
    j < |s.jobs| && s.jobs[j].phase == Announced(false) &&
    exists i: nat :: i < j && Pushed(s, i) && s.jobs[i].entity == s.jobs[j].entity && !Done(s.jobs[i])
  }

  /** Which job a step finishes. */
  ghost predicate Finishes(s: State, s': State, j: nat) {
    j < |s.jobs| && j < |s'.jobs| && !s.jobs[j].finished && s'.jobs[j].finished
  }

  /** An older job of the same entity on the same ring stands ahead. */
  lemma AheadOnRing(s: State, k: nat, x: nat, i: nat)
    requires k < |s.scheds| && RingInv(s, k) && x < |s.scheds[k].ring| && i in s.scheds[k].ring
    requires s.scheds[k].ring[x] < |s.jobs| && i < s.scheds[k].ring[x]
    requires s.jobs[i].entity == s.jobs[s.scheds[k].ring[x]].entity
    ensures exists y :: 0 <= y < x && s.scheds[k].ring[y] == i
  {
    var y :| 0 <= y < |s.scheds[k].ring| && s.scheds[k].ring[y] == i;
    assert y < x;
  }

  /** A job pushed before a popped one has been popped too. */
  lemma PushedBefore(s: State, i: nat, j: nat)
    requires Inv(s) && i < j && Pushed(s, i) && j < |s.jobs| && PastQueue(s.jobs[j].phase)
    requires s.jobs[i].entity == s.jobs[j].entity
    ensures PastQueue(s.jobs[i].phase)
  {
    assert JobInv(s, i) && JobInv(s, j);
    QueueIsNewer(s, j);
  }

  lemma QueueIsNewer(s: State, j: nat)
    requires Bounds(s) && j < |s.jobs| && JobInv(s, j)
    ensures PastQueue(s.jobs[j].phase) ==> forall q :: q in s.entities[s.jobs[j].entity].queue ==> j < q
  {
  }

  /** A job that a ring completes is the entity's oldest one under way. */
  lemma CompletedIsOldest(s: State, k: nat, x: nat, i: nat)
    requires Inv(s) && LeftNothing(s) && k < |s.scheds| && x < |s.scheds[k].ring|
    requires Step(s, HwComplete(k, x)).Some? && s.jobs[s.scheds[k].ring[x]].phase.Registered?
    requires i < s.scheds[k].ring[x] && Pushed(s, i) && s.jobs[i].entity == s.jobs[s.scheds[k].ring[x]].entity
    ensures Done(s.jobs[i])
  {
    var j := s.scheds[k].ring[x];
    assert SchedulerInv(s, k) && JobInv(s, i) && JobInv(s, j);
    PushedBefore(s, i, j);
    if s.jobs[i].phase.Registered? && s.jobs[i].sched == k {
      AheadOnRing(s, k, x, i);
    }
  }

  /** A job with a fence that its own thread processes, because the hardware was
      faster than the callback, is the oldest one under way as well. */
  lemma AttachedIsOldest(s: State, k: nat, i: nat)
    requires Inv(s) && LeftNothing(s) && k < |s.scheds| && s.scheds[k].thread.TAnnounced?
    requires var j := s.scheds[k].thread.job;
             j < |s.jobs| && s.jobs[j].phase == Announced(true) && s.jobs[j].hwDone && i < j && Pushed(s, i)
             && s.jobs[i].entity == s.jobs[j].entity
    ensures Done(s.jobs[i])
  {
    var j := s.scheds[k].thread.job;
    assert SchedulerInv(s, k) && JobInv(s, i) && JobInv(s, j);
    PushedBefore(s, i, j);
    if s.jobs[i].phase.Registered? && s.jobs[i].sched == k {
      var x :| 0 <= x < |s.scheds[k].ring| && s.scheds[k].ring[x] == j;
      AheadOnRing(s, k, x, i);
    }
  }

  /** A job is finished by its own thread or by its ring, and by nothing else. */
  lemma WhoFinishes(s: State, a: Action, j: nat)
    requires Inv(s) && Step(s, a).Some? && Finishes(s, Step(s, a).value, j)
    ensures (a.Attach? && a.k < |s.scheds| && s.scheds[a.k].thread == TAnnounced(j)
             && (s.jobs[j].phase == Announced(false) || (s.jobs[j].phase == Announced(true) && s.jobs[j].hwDone)))
            || (a.HwComplete? && a.k < |s.scheds| && a.x < |s.scheds[a.k].ring| && s.scheds[a.k].ring[a.x] == j
                && s.jobs[j].phase.Registered?)
  {
    if ThreadOf(a).Some? {
      assert SchedulerInv(s, ThreadOf(a).value);
    }
  }

  /** What any step may do to a job. */
  ghost predicate Forward(s: State, s': State, a: Action, j: nat)
    requires j < |s.jobs|
  {
    && j < |s'.jobs| && s'.jobs[j].entity == s.jobs[j].entity && s'.jobs[j].sched == s.jobs[j].sched
    && (Done(s.jobs[j]) ==> Done(s'.jobs[j]))
    && (s.jobs[j].finished ==> s'.jobs[j].finished)
    && (Pushed(s, j) ==> Pushed(s', j))
    && (PastQueue(s.jobs[j].phase) ==> PastQueue(s'.jobs[j].phase))
    && (PastQueue(s'.jobs[j].phase) && !PastQueue(s.jobs[j].phase) ==>
          a.Pop? && s.jobs[j].entity < |s.entities| && j in s.entities[s.jobs[j].entity].queue
          && s.jobs[j].sched == s.entities[s.jobs[j].entity].rq)
    && (Pushed(s', j) && !Pushed(s, j) ==> a.SubPush? && s'.jobs[j].phase.Queued?)
  }

  lemma ForwardEntity(s: State, a: Action, k: nat, j: nat)
    requires k < |s.scheds| && ThreadOf(a) == Some(k) && !OnJob(a) && Step(s, a).Some? && j < |s.jobs|
    requires SchedThread.Worked(s, a, k) < |s.entities| && QueueInv(s, SchedThread.Worked(s, a, k))
    ensures Forward(s, Step(s, a).value, a, j)
  {
  }

  lemma ForwardJob(s: State, a: Action, k: nat, j: nat)
    requires k < |s.scheds| && ThreadOf(a) == Some(k) && OnJob(a) && Step(s, a).Some? && j < |s.jobs|
    requires ThreadInv(s, k)
    ensures Forward(s, Step(s, a).value, a, j)
  {
  }

  lemma ForwardRemote(s: State, a: Action, j: nat)
    requires ThreadOf(a).None? && Submitter(a).None? && Step(s, a).Some? && j < |s.jobs|
    requires a.HwComplete? && a.k < |s.scheds| ==> RingInv(s, a.k)
    ensures Forward(s, Step(s, a).value, a, j)
  {
  }

  lemma ForwardSubmit(s: State, a: Action, e: nat, j: nat)
    requires Submitter(a) == Some(e) && e < |s.entities| && SubInv(s, e) && Step(s, a).Some? && j < |s.jobs|
    ensures Forward(s, Step(s, a).value, a, j)
  {
  }

  /** Done, pushed and bound for a scheduler are for ever. */
  lemma JobsGoForward(s: State, a: Action, j: nat)
    requires Inv(s) && Step(s, a).Some? && j < |s.jobs|
    ensures Forward(s, Step(s, a).value, a, j)
  {
    if Submitter(a).Some? {
      assert EntityInv(s, Submitter(a).value);
      ForwardSubmit(s, a, Submitter(a).value, j);
    } else if ThreadOf(a).Some? {
      var k := ThreadOf(a).value;
      assert SchedulerInv(s, k);
      if OnJob(a) {
        ForwardJob(s, a, k, j);
      } else {
        assert EntityInv(s, SchedThread.Worked(s, a, k));
        ForwardEntity(s, a, k, j);
      }
    } else {
      assert a.HwComplete? ==> SchedulerInv(s, a.k);
      ForwardRemote(s, a, j);
    }
  }

  lemma NewJobsAreCreated(s: State, a: Action, j: nat)
    requires Step(s, a).Some? && |s.jobs| <= j < |Step(s, a).value.jobs|
    ensures Step(s, a).value.jobs[j].phase.Created? && !Step(s, a).value.jobs[j].finished
  {
  }

  /** After a step, order holds exactly if the step was not such an early
      processing. */
  lemma StepOrderedIff(s: State, a: Action)
    requires Inv(s) && LeftNothing(s) && Ordered(s) && Step(s, a).Some?
    ensures Ordered(Step(s, a).value) <==> !NullEarly(s, a)
  {
    var s' := Step(s, a).value;
    if NullEarly(s, a) {
      var j := s.scheds[a.k].thread.job;
      var i: nat :| i < j && Pushed(s, i) && s.jobs[i].entity == s.jobs[j].entity && !Done(s.jobs[i]);
      assert SchedulerInv(s, a.k);
      assert Pushed(s', i) && Pushed(s', j) && s'.jobs[j].finished && !Done(s'.jobs[i]);
    } else {
      forall i: nat, j: nat | i < j && Pushed(s', i) && Pushed(s', j) && s'.jobs[i].entity == s'.jobs[j].entity
                              && s'.jobs[j].finished
        ensures Done(s'.jobs[i])
      {
        OrderedPair(s, a, i, j);
      }
    }
  }

  lemma OrderedPair(s: State, a: Action, i: nat, j: nat)
    requires Inv(s) && LeftNothing(s) && Ordered(s) && Step(s, a).Some? && !NullEarly(s, a)
    requires var s' := Step(s, a).value;
             i < j && Pushed(s', i) && Pushed(s', j) && s'.jobs[i].entity == s'.jobs[j].entity && s'.jobs[j].finished
    ensures Done(Step(s, a).value.jobs[i])
  {
    var s' := Step(s, a).value;
    if j >= |s.jobs| {
      NewJobsAreCreated(s, a, j);
    } else {
      JobsGoForward(s, a, i);
      JobsGoForward(s, a, j);
      StepKeeps(s, a);
      assert JobInv(s', j) && JobInv(s, j);
      if !Pushed(s, i) {
        // only a push can bring in i, and it pushes the newest job
        NewestIsPushed(s, a, i, j);
      } else if Finishes(s, s', j) {
        WhoFinishes(s, a, j);
        if a.HwComplete? {
          CompletedIsOldest(s, a.k, a.x, i);
        } else if s.jobs[j].phase == Announced(true) {
          AttachedIsOldest(s, a.k, i);
        } else {
          assert Done(s.jobs[i]);
        }
      } else {
        assert Pushed(s, j);
      }
    }
  }

  /** A push adds a job newer than every pushed job of the entity. */
  lemma NewestIsPushed(s: State, a: Action, i: nat, j: nat)
    requires Inv(s) && Step(s, a).Some? && i < |s.jobs| && j < |s.jobs|
    requires !Pushed(s, i) && Pushed(Step(s, a).value, i) && Pushed(s, j) && s.jobs[i].entity == s.jobs[j].entity
    ensures j < i
  {
    JobsGoForward(s, a, i);
    assert EntityInv(s, a.e);
  }

  /** Moving an entity leaves nothing behind, because its newest popped job has
      finished and jobs have finished in order. */
  lemma StepLeavesNothing(s: State, a: Action)
    requires Inv(s) && LeftNothing(s) && Ordered(s) && Step(s, a).Some?
    ensures LeftNothing(Step(s, a).value)
  {
    var s' := Step(s, a).value;
    StepKeeps(s, a);
    forall j | 0 <= j < |s'.jobs| && PastQueue(s'.jobs[j].phase) && s'.jobs[j].sched != s'.entities[s'.jobs[j].entity].rq
      ensures Done(s'.jobs[j])
    {
      LeftBehind(s, a, j);
    }
    forall i, j | 0 <= i < j < |s'.jobs| && PastQueue(s'.jobs[i].phase) && PastQueue(s'.jobs[j].phase)
                  && s'.jobs[i].entity == s'.jobs[j].entity && s'.jobs[i].sched != s'.jobs[j].sched
      ensures Done(s'.jobs[i])
    {
      LeftEarlier(s, a, i, j);
    }
  }

  lemma RqChanges(s: State, a: Action, e: nat)
    requires Step(s, a).Some? && e < |s.entities|
    ensures |Step(s, a).value.entities| == |s.entities|
    ensures Step(s, a).value.entities[e].rq != s.entities[e].rq ==>
              a.SubMove? && a.e == e && s.entities[e].sub.MayMove? && Step(s, a).value.jobs == s.jobs
  {
  }

  lemma LeftBehind(s: State, a: Action, j: nat)
    requires Inv(s) && LeftNothing(s) && Ordered(s) && Step(s, a).Some?
    requires var s' := Step(s, a).value;
             j < |s'.jobs| && s'.jobs[j].entity < |s'.entities| && PastQueue(s'.jobs[j].phase)
             && s'.jobs[j].sched != s'.entities[s'.jobs[j].entity].rq
    ensures Done(Step(s, a).value.jobs[j])
  {
    if j >= |s.jobs| {
      NewJobsAreCreated(s, a, j);
    } else {
      JobsGoForward(s, a, j);
      var e := s.jobs[j].entity;
      RqChanges(s, a, e);
      if Step(s, a).value.entities[e].rq != s.entities[e].rq {
        assert EntityInv(s, e) && JobInv(s, j);
        var l := s.entities[e].lastScheduled.value;
        assert JobInv(s, l);
        assert j < l ==> Pushed(s, j) && Pushed(s, l);
      }
    }
  }

  lemma LeftEarlier(s: State, a: Action, i: nat, j: nat)
    requires Inv(s) && LeftNothing(s) && Step(s, a).Some?
    requires var s' := Step(s, a).value;
             i < j < |s'.jobs| && PastQueue(s'.jobs[i].phase) && PastQueue(s'.jobs[j].phase)
             && s'.jobs[i].entity == s'.jobs[j].entity && s'.jobs[i].sched != s'.jobs[j].sched
    ensures Done(Step(s, a).value.jobs[i])
  {
    if j >= |s.jobs| {
      NewJobsAreCreated(s, a, j);
    } else {
      JobsGoForward(s, a, i);
      JobsGoForward(s, a, j);
      assert JobInv(s, i) && JobInv(s, j);
      if !PastQueue(s.jobs[i].phase) {
        // i is the head that is popped now, so j cannot have left the queue before
        PoppedLater(s, a, i, j);
      }
    }
  }

  lemma PoppedLater(s: State, a: Action, i: nat, j: nat)
    requires Inv(s) && Step(s, a).Some? && i < j < |s.jobs| && s.jobs[i].entity == s.jobs[j].entity
    requires !PastQueue(s.jobs[i].phase) && PastQueue(Step(s, a).value.jobs[i].phase)
    ensures i < |Step(s, a).value.jobs| && j < |Step(s, a).value.jobs| && !PastQueue(Step(s, a).value.jobs[j].phase)
  {
    JobsGoForward(s, a, i);
    JobsGoForward(s, a, j);
    assert JobInv(s, i) && JobInv(s, j);
    QueueIsNewer(s, j);
    assert SchedulerInv(s, a.k);
  }

  // ------------------------------------------------------------- whole runs

  ghost predicate AlwaysOrdered(s: State, acts: seq<Action>)
    decreases |acts|
  {
    Ordered(s) &&
    (acts == [] ||
     match Step(s, acts[0])
     case None => true
     case Some(s') => AlwaysOrdered(s', acts[1..]))
  }

  ghost predicate NeverNullEarly(s: State, acts: seq<Action>)
    decreases |acts|
  {
    acts == [] ||
    match Step(s, acts[0])
    case None => true
    case Some(s') => !NullEarly(s, acts[0]) && NeverNullEarly(s', acts[1..])
  }

  lemma {:induction false} OrderedIffFrom(s: State, acts: seq<Action>)
    requires Inv(s) && LeftNothing(s) && Ordered(s)
    ensures AlwaysOrdered(s, acts) <==> NeverNullEarly(s, acts)
    ensures NeverNullEarly(s, acts) && Run(s, acts).Some? ==>
              Inv(Run(s, acts).value) && LeftNothing(Run(s, acts).value) && Ordered(Run(s, acts).value)
    decreases |acts|
  {
    if acts != [] && Step(s, acts[0]).Some? {
      StepKeeps(s, acts[0]);
      StepOrderedIff(s, acts[0]);
      StepLeavesNothing(s, acts[0]);
      if !NullEarly(s, acts[0]) {
        OrderedIffFrom(Step(s, acts[0]).value, acts[1..]);
      }
    }
  }

  /** Main result on order.  From an idle system with rings that complete in
      order, the jobs of every entity finish in push order throughout a run, even
      across load balancing, if and only if no job whose run_job returned no fence
      is processed while an earlier job of its entity is under way. */
  lemma FinishInOrderIff(s0: State, acts: seq<Action>)
    requires Init(s0)
    ensures AlwaysOrdered(s0, acts) <==> NeverNullEarly(s0, acts)
  {
    InitInv(s0);
    OrderedIffFrom(s0, acts);
  }

  /** Under that condition a dependency that was not waited for is no hazard:
      when run_job is called, each one handed out is signaled, or is of a job
      that is done, or of a job ahead of this one on the very same ring (or of
      this job or a later one of the same entity). */
  lemma DependenciesOrdered(s0: State, acts: seq<Action>, k: nat, ok: bool, f: FenceRef)
    requires Init(s0) && NeverNullEarly(s0, acts) && Run(s0, acts).Some?
    requires Step(Run(s0, acts).value, RunJob(k, ok)).Some?
    requires var s := Run(s0, acts).value;
             k < |s.scheds| && s.scheds[k].thread.TCounted? && s.scheds[k].thread.job < |s.jobs|
             && f in s.jobs[s.scheds[k].thread.job].handed
    ensures var s := Run(s0, acts).value;
            var j := s.scheds[k].thread.job;
            || Signaled(s, f)
            || (f.OfJob? && f.job < |s.jobs| &&
                (Done(s.jobs[f.job]) || f.job in s.scheds[k].ring
                 || !Pushed(s, f.job)
                 || (s.jobs[f.job].entity == s.jobs[j].entity && f.job >= j)))
  {
    var s := Run(s0, acts).value;
    InitInv(s0);
    OrderedIffFrom(s0, acts);
    var j := s.scheds[k].thread.job;
    RunJobSafe(s0, acts, k, ok);
    assert SchedulerInv(s, k) && JobInv(s, j);
    assert Satisfied(s, j, f);
    if f.OfJob? && f.job < |s.jobs| {
      assert JobInv(s, f.job);
    }
  }
}
