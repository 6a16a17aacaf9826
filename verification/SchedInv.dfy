/** The invariant of the scheduler state machine. */
module SchedInv {
  import opened Wrappers
  import opened SchedModel

  predicate PastQueue(p: Phase) {
    !p.Created? && !p.Queued?
  }

  /** The scheduler thread still has the job in hand. */
  predicate InThread(p: Phase) {
    p.Popped? || p.Counted? || p.Running? || p.Announced?
  }

  /** Counted in `hw_rq_count` and not yet taken out again. */
  predicate InFlight(p: Phase) {
    p.Counted? || p.Running? || p.Announced? || p.Registered?
  }

  predicate HasFence(p: Phase) {
    p == Running(true) || p == Announced(true) || p.Registered?
  }

  predicate Ran(p: Phase) {
    PastQueue(p) && !p.Popped? && !p.Counted?
  }

  predicate HoldsEntity(t: ThreadPc, e: nat) {
    (t.TSelected? || t.TDep? || t.TReady? || t.TStored?) && t.e == e
  }

  /** A dependency of job j that no longer delays it, as the source promises:
      signaled, of the same entity, or of the same scheduler and scheduled. */
  ghost predicate Satisfied(s: State, j: nat, f: FenceRef)
    requires j < |s.jobs|
  {
    || Signaled(s, f)
    || (f.OfJob? && f.job < |s.jobs| && s.jobs[f.job].entity == s.jobs[j].entity)
    || (f.OfJob? && f.job < |s.jobs| && s.jobs[f.job].sched == s.jobs[j].sched && s.jobs[f.job].scheduled)
  }

  ghost predicate AllSatisfied(s: State, j: nat)
    requires j < |s.jobs|
  {
    forall f :: f in s.jobs[j].handed ==> Satisfied(s, j, f)
  }

  /** Waiting for g is how the entity waits for f. */
  ghost predicate WaitsFor(s: State, rq: nat, f: FenceRef, g: FenceRef) {
    f == g || (f.OfJob? && f.job < |s.jobs| && s.jobs[f.job].sched == rq && g == OfJob(f.job, false))
  }

  ghost predicate Awaited(s: State, e: nat, f: FenceRef)
    requires e < |s.entities| && s.entities[e].rq < |s.scheds|
  {
    || (s.entities[e].dep.WaitingOn? && WaitsFor(s, s.entities[e].rq, f, s.entities[e].dep.on))
    || s.scheds[s.entities[e].rq].thread == TDep(e, f)
  }

  ghost predicate Bounds(s: State) {
    && (forall e :: 0 <= e < |s.entities| ==> s.entities[e].rq < |s.scheds|)
    && (forall j :: 0 <= j < |s.jobs| ==> s.jobs[j].entity < |s.entities| && s.jobs[j].sched < |s.scheds|)
  }

  /** The queue of an entity holds its waiting jobs, oldest first, all bound for
      the scheduler the entity is on. */
  ghost predicate QueueInv(s: State, e: nat)
    requires e < |s.entities|
  {
    var n := s.entities[e];
    && (forall x :: 0 <= x < |n.queue| ==>
          n.queue[x] < |s.jobs| && s.jobs[n.queue[x]].entity == e && s.jobs[n.queue[x]].sched == n.rq
          && s.jobs[n.queue[x]].phase.Queued? && (x > 0 ==> s.jobs[n.queue[x]].handed == {}))
    && (forall x, y :: 0 <= x < y < |n.queue| ==> n.queue[x] < n.queue[y])
  }

  ghost predicate DepInv(s: State, e: nat)
    requires e < |s.entities| && s.entities[e].rq < |s.scheds|
  {
    var n := s.entities[e];
    && (n.dep.WaitingOn? ==> n.queue != [] && !HoldsEntity(s.scheds[n.rq].thread, e))
    && (n.dep.Transient? ==> s.scheds[n.rq].thread == TSelected(e)
                             || (s.scheds[n.rq].thread.TDep? && s.scheds[n.rq].thread.e == e))
    && (n.queue != [] && n.queue[0] < |s.jobs| ==>
          forall f :: f in s.jobs[n.queue[0]].handed ==> Satisfied(s, n.queue[0], f) || Awaited(s, e, f))
  }

  /** `last_scheduled` is the newest popped job, or the one about to be popped. */
  ghost predicate LastInv(s: State, e: nat)
    requires e < |s.entities| && s.entities[e].rq < |s.scheds|
  {
    var n := s.entities[e];
    n.lastScheduled.Some? ==>
      var l := n.lastScheduled.value;
      && l < |s.jobs| && s.jobs[l].entity == e
      && (PastQueue(s.jobs[l].phase) ||
          (n.queue != [] && n.queue[0] == l && s.scheds[n.rq].thread == TStored(e)))
      && (!s.jobs[l].finished ==> s.jobs[l].sched == n.rq)
  }

  ghost predicate SubInv(s: State, e: nat)
    requires e < |s.entities|
  {
    var n := s.entities[e];
    match n.sub
    case SawEmpty => n.queue == []
    case SawFence(f) => n.queue == [] && f == n.lastScheduled
    case MayMove => n.queue == [] && (n.lastScheduled.Some? ==> Signaled(s, OfJob(n.lastScheduled.value, true)))
    case Inited(j) => j < |s.jobs| && s.jobs[j].entity == e && s.jobs[j].sched == n.rq && s.jobs[j].phase.Created?
                      && forall i :: 0 <= i < |s.jobs| && s.jobs[i].entity == e && !s.jobs[i].phase.Created? ==> i < j
    case _ => true
  }

  /** A thread that works on an entity: the entity is on its run queue, has a
      job to give, and there was room on the ring when it was selected. */
  ghost predicate WorksOn(s: State, k: nat, e: nat)
    requires k < |s.scheds|
  {
    s.scheds[k].hwRqCount < s.limit && e < |s.entities| && s.entities[e].rq == k && s.entities[e].queue != []
  }

  ghost predicate HasJob(s: State, k: nat, j: nat) {
    j < |s.jobs| && s.jobs[j].sched == k
  }

  ghost predicate ThreadInv(s: State, k: nat)
    requires k < |s.scheds|
  {
    match s.scheds[k].thread
    case TIdle => true
    case TSelected(e) => WorksOn(s, k, e) && !s.entities[e].dep.WaitingOn?
    case TDep(e, f) => WorksOn(s, k, e) && s.entities[e].dep == Transient(f)
                       && (f.OfJob? ==> f.job < |s.jobs|)
    case TReady(e) => WorksOn(s, k, e) && s.entities[e].dep.NoDep?
    case TStored(e) => WorksOn(s, k, e) && s.entities[e].dep.NoDep?
                       && s.entities[e].lastScheduled == Some(s.entities[e].queue[0])
    case TPopped(j) => s.scheds[k].hwRqCount < s.limit && HasJob(s, k, j) && s.jobs[j].phase.Popped?
    case TCounted(j) => HasJob(s, k, j) && s.jobs[j].phase.Counted?
    case TRan(j) => HasJob(s, k, j) && s.jobs[j].phase.Running?
    case TAnnounced(j) => HasJob(s, k, j) && s.jobs[j].phase.Announced?
  }

  predicate ThreadMatches(t: ThreadPc, j: nat, p: Phase) {
    match p
    case Popped => t == TPopped(j)
    case Counted => t == TCounted(j)
    case Running(_) => t == TRan(j)
    case Announced(_) => t == TAnnounced(j)
    case _ => true
  }

  ghost predicate JobInv(s: State, j: nat)
    requires Bounds(s) && j < |s.jobs|
  {
    var b := s.jobs[j];
    var n := s.entities[b.entity];
    && (b.phase.Created? ==> b.handed == {})
    && (b.phase.Queued? ==> j in n.queue)
    && (PastQueue(b.phase) ==>
          && n.lastScheduled.Some? && j <= n.lastScheduled.value
          && (forall x :: 0 <= x < |n.queue| ==> j < n.queue[x])
          && AllSatisfied(s, j))
    && (InThread(b.phase) ==> n.lastScheduled == Some(j) && ThreadMatches(s.scheds[b.sched].thread, j, b.phase))
    && (HasFence(b.phase) ==> j in s.scheds[b.sched].ring)
    && (b.hwDone ==> Ran(b.phase) && !b.phase.Registered?)
    && (b.scheduled <==> b.phase.Announced? || b.phase.Registered? || b.phase.Finished? || b.phase.Detached?)
    && (b.finished <==> b.phase.Finished?)
  }

  /** A ring holds jobs of its scheduler in the order they were run, and the
      hardware has completed a prefix of it. */
  ghost predicate RingInv(s: State, k: nat)
    requires k < |s.scheds|
  {
    var r := s.scheds[k].ring;
    && (forall x :: 0 <= x < |r| ==> r[x] < |s.jobs| && s.jobs[r[x]].sched == k && Ran(s.jobs[r[x]].phase))
    && (forall x, y :: 0 <= x < y < |r| ==>
          && r[x] != r[y]
          && (s.jobs[r[y]].hwDone ==> s.jobs[r[x]].hwDone)
          && (s.jobs[r[x]].entity == s.jobs[r[y]].entity ==> r[x] < r[y]))
  }

  /** The jobs of scheduler k that are counted in. */
  function CountInFlight(jobs: seq<Job>, k: nat): nat {
    if jobs == [] then 0
    else CountInFlight(jobs[..|jobs| - 1], k) + Weight(jobs[|jobs| - 1], k)
  }

  function Weight(b: Job, k: nat): nat {
    if b.sched == k && InFlight(b.phase) then 1 else 0
  }

  lemma {:induction false} CountUpdate(jobs: seq<Job>, j: nat, b: Job, k: nat)
    requires j < |jobs|
    ensures CountInFlight(jobs[j := b], k) == CountInFlight(jobs, k) - Weight(jobs[j], k) + Weight(b, k)
  {
    var n := |jobs| - 1;
    if j == n {
      assert jobs[j := b][..n] == jobs[..n];
    } else {
      assert jobs[j := b][..n] == jobs[..n][j := b];
      CountUpdate(jobs[..n], j, b, k);
    }
  }

  lemma CountAppend(jobs: seq<Job>, b: Job, k: nat)
    ensures CountInFlight(jobs + [b], k) == CountInFlight(jobs, k) + Weight(b, k)
  {
    assert (jobs + [b])[..|jobs|] == jobs;
  }

  /** `hw_rq_count` is the number of jobs counted in and not yet processed or
      detached, and never exceeds the submission limit. */
  ghost predicate CountInv(s: State, k: nat)
    requires k < |s.scheds|
  {
    s.scheds[k].hwRqCount == CountInFlight(s.jobs, k) <= s.limit
  }

  ghost predicate EntityInv(s: State, e: nat)
    requires Bounds(s) && e < |s.entities|
  {
    QueueInv(s, e) && DepInv(s, e) && LastInv(s, e) && SubInv(s, e)
  }

  ghost predicate SchedulerInv(s: State, k: nat)
    requires k < |s.scheds|
  {
    ThreadInv(s, k) && RingInv(s, k) && CountInv(s, k)
  }

  ghost predicate Inv(s: State) {
    && Bounds(s)
    && (forall e :: 0 <= e < |s.entities| ==> EntityInv(s, e))
    && (forall k :: 0 <= k < |s.scheds| ==> SchedulerInv(s, k))
    && (forall j :: 0 <= j < |s.jobs| ==> JobInv(s, j))
  }

  lemma InitInv(s: State)
    requires Init(s)
    ensures Inv(s)
  {
  }

}
