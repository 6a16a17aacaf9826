/** What the scheduler guarantees over whole runs. */
module SchedMain {
  import opened Wrappers
  import opened SchedModel
  import opened SchedInv
  import opened SchedSubmit
  import opened SchedThread
  import opened SchedJobs

  /** Every step, of any submitter, scheduler thread, ring or reset, in any
      order, keeps the invariant. */
  lemma StepKeeps(s: State, a: Action)
    requires Inv(s) && Step(s, a).Some?
    ensures Inv(Step(s, a).value)
  {
    if Submitter(a).Some? {
      SubmitterKeeps(s, a, Submitter(a).value);
    } else if ThreadOf(a).Some? {
      if OnJob(a) {
        JobStepKeeps(s, a, ThreadOf(a).value);
      } else {
        EntityStepKeeps(s, a, ThreadOf(a).value);
      }
    } else {
      match a {
        case HwComplete(k, x) => RemoteKeeps(s, a, k, s.scheds[k].ring[x]);
        case Detach(k, j) => RemoteKeeps(s, a, k, j);
        case SignalExternal(x) => ExternalKeeps(s, x);
        case ClearDep(e) => ClearDepKeeps(s, e);
        case _ =>
      }
    }
  }

  function Run(s: State, acts: seq<Action>): Option<State>
    decreases |acts|
  {
    if acts == [] then Some(s)
    else match Step(s, acts[0])
         case None => None
         case Some(s') => Run(s', acts[1..])
  }

  lemma {:induction false} RunKeeps(s: State, acts: seq<Action>)
    requires Inv(s) && Run(s, acts).Some?
    ensures Inv(Run(s, acts).value)
    decreases |acts|
  {
    if acts != [] {
      StepKeeps(s, acts[0]);
      RunKeeps(Step(s, acts[0]).value, acts[1..]);
    }
  }

  /** A job that was pushed. */
  predicate Pushed(s: State, j: nat) {
    j < |s.jobs| && !s.jobs[j].phase.Created?
  }

  /** Main result on running.  Whenever run_job is called, after any run from an
      idle system: every fence the dependency callback handed out for the job is
      signaled, belongs to the same entity, or is of a job of the same scheduler
      whose scheduled fence has signaled; every job of the entity pushed before
      it has been run already, and every one pushed after it is still queued. */
  lemma RunJobSafe(s0: State, acts: seq<Action>, k: nat, ok: bool)
    requires Init(s0) && Run(s0, acts).Some?
    requires Step(Run(s0, acts).value, RunJob(k, ok)).Some?
    ensures var s := Run(s0, acts).value;
            && k < |s.scheds| && s.scheds[k].thread.TCounted?
            && var j := s.scheds[k].thread.job;
            && j < |s.jobs| && s.jobs[j].sched == k
            && (forall f :: f in s.jobs[j].handed ==> Satisfied(s, j, f))
            && (forall i: nat :: Pushed(s, i) && s.jobs[i].entity == s.jobs[j].entity ==>
                  (i < j ==> Ran(s.jobs[i].phase)) && (i > j ==> s.jobs[i].phase.Queued?))
  {
    var s := Run(s0, acts).value;
    InitInv(s0);
    RunKeeps(s0, acts);
    assert SchedulerInv(s, k);
    var j := s.scheds[k].thread.job;
    assert JobInv(s, j);
    forall i: nat | Pushed(s, i) && s.jobs[i].entity == s.jobs[j].entity
      ensures (i < j ==> Ran(s.jobs[i].phase)) && (i > j ==> s.jobs[i].phase.Queued?)
    {
      assert JobInv(s, i);
      if s.jobs[i].phase.Queued? {
        var x :| 0 <= x < |s.entities[s.jobs[i].entity].queue| && s.entities[s.jobs[i].entity].queue[x] == i;
        assert j < s.entities[s.jobs[i].entity].queue[x];
      }
    }
  }

  /** An entity changes scheduler only with an empty queue and with its newest
      popped job finished; every job it ever pushed has left the queue. */
  lemma MovesOnlyWhenDrained(s0: State, acts: seq<Action>, a: Action, e: nat)
    requires Init(s0) && Run(s0, acts).Some? && Step(Run(s0, acts).value, a).Some?
    requires e < |Run(s0, acts).value.entities|
    ensures var s, s' := Run(s0, acts).value, Step(Run(s0, acts).value, a).value;
            && e < |s'.entities|
            && (s'.entities[e].rq != s.entities[e].rq ==>
                  && s.entities[e].queue == []
                  && (forall j: nat :: Pushed(s, j) && s.jobs[j].entity == e ==>
                        PastQueue(s.jobs[j].phase) && s.entities[e].lastScheduled.Some?
                        && j <= s.entities[e].lastScheduled.value)
                  && (s.entities[e].lastScheduled.Some? ==>
                        Signaled(s, OfJob(s.entities[e].lastScheduled.value, true))))
  {
    var s, s' := Run(s0, acts).value, Step(Run(s0, acts).value, a).value;
    InitInv(s0);
    RunKeeps(s0, acts);
    OnlyMoves(s, a, e);
    if s'.entities[e].rq != s.entities[e].rq {
      DrainedJobs(s, e);
    }
  }

  lemma OnlyMoves(s: State, a: Action, e: nat)
    requires Step(s, a).Some? && e < |s.entities|
    ensures e < |Step(s, a).value.entities|
    ensures Step(s, a).value.entities[e].rq != s.entities[e].rq ==> s.entities[e].sub.MayMove?
  {
  }

  /** A submitter that may move has left every pushed job of its entity behind it in the queue. */
  lemma DrainedJobs(s: State, e: nat)
    requires Inv(s) && e < |s.entities| && s.entities[e].sub.MayMove?
    ensures s.entities[e].queue == []
    ensures s.entities[e].lastScheduled.Some? ==> Signaled(s, OfJob(s.entities[e].lastScheduled.value, true))
    ensures forall j: nat :: Pushed(s, j) && s.jobs[j].entity == e ==>
              PastQueue(s.jobs[j].phase) && s.entities[e].lastScheduled.Some? && j <= s.entities[e].lastScheduled.value
  {
    assert EntityInv(s, e);
    forall j: nat | Pushed(s, j) && s.jobs[j].entity == e
      ensures PastQueue(s.jobs[j].phase) && s.entities[e].lastScheduled.Some? && j <= s.entities[e].lastScheduled.value
    {
      assert JobInv(s, j);
    }
  }

  /** In every run the in-flight count of every scheduler is the number of jobs
      counted in and not yet processed or detached, and within the limit; and no
      finished fence signals before the scheduled fence of the same job. */
  lemma CountsExact(s0: State, acts: seq<Action>)
    requires Init(s0) && Run(s0, acts).Some?
    ensures var s := Run(s0, acts).value;
            && (forall k :: 0 <= k < |s.scheds| ==>
                  s.scheds[k].hwRqCount == CountInFlight(s.jobs, k) <= s.limit)
            && (forall j :: 0 <= j < |s.jobs| ==> (s.jobs[j].finished ==> s.jobs[j].scheduled))
  {
    var s := Run(s0, acts).value;
    InitInv(s0);
    RunKeeps(s0, acts);
    forall k | 0 <= k < |s.scheds|
      ensures s.scheds[k].hwRqCount == CountInFlight(s.jobs, k) <= s.limit
    {
      assert SchedulerInv(s, k);
    }
    forall j | 0 <= j < |s.jobs|
      ensures s.jobs[j].finished ==> s.jobs[j].scheduled
    {
      assert JobInv(s, j);
    }
  }

  /** How one step may change the phase of a job with respect to the count. */
  ghost predicate CountChange(s: State, s': State, a: Action, j: nat) {
    && j < |s.jobs| && j < |s'.jobs|
    && (InFlight(s'.jobs[j].phase) && !InFlight(s.jobs[j].phase) ==>
          a == CountIn(s.jobs[j].sched) && s.jobs[j].phase.Popped?)
    && (InFlight(s.jobs[j].phase) && !InFlight(s'.jobs[j].phase) ==>
          (s'.jobs[j].phase.Finished? && s'.jobs[j].finished) || s'.jobs[j].phase.Detached?)
    && (s.jobs[j].phase.Finished? || s.jobs[j].phase.Detached? ==> s'.jobs[j].phase == s.jobs[j].phase)
  }

  lemma CountChangeThread(s: State, a: Action, k: nat, j: nat)
    requires k < |s.scheds| && ThreadOf(a) == Some(k) && Step(s, a).Some? && j < |s.jobs|
    requires ThreadInv(s, k)
    requires Worked(s, a, k) < |s.entities| ==> QueueInv(s, Worked(s, a, k))
    ensures CountChange(s, Step(s, a).value, a, j)
  {
  }

  /** A job leaves the in-flight count once: it enters only by the raise of its
      own scheduler's count and, once out, never returns. */
  lemma CountedOnce(s: State, a: Action, j: nat)
    requires Inv(s) && Step(s, a).Some? && j < |s.jobs|
    ensures CountChange(s, Step(s, a).value, a, j)
  {
    if ThreadOf(a).Some? {
      assert SchedulerInv(s, ThreadOf(a).value);
      assert Worked(s, a, ThreadOf(a).value) < |s.entities| ==> EntityInv(s, Worked(s, a, ThreadOf(a).value));
      CountChangeThread(s, a, ThreadOf(a).value, j);
    } else if a.SubPush? {
      assert EntityInv(s, a.e);
    } else if a.HwComplete? {
      assert SchedulerInv(s, a.k);
    }
  }
}
