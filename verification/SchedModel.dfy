/** The GPU scheduler as a state machine: entities with FIFO queues, one
    scheduler thread per ring, submitters that may move an entity to another
    scheduler, hardware completions and resets.  A step is one atomic operation
    or one callback of the source. */
module SchedModel {
  import opened Wrappers

  /** A fence a job may depend on: one from elsewhere, or the scheduled or
      finished fence of a job. */
  datatype FenceRef = External(x: nat) | OfJob(job: nat, finished: bool)

  datatype Phase =
    | Created              // initialised, not (or never) pushed
    | Queued
    | Popped
    | Counted              // hw_rq_count was raised for it
    | Running(hasFence: bool)
    | Announced(hasFence: bool)   // scheduled fence signaled
    | Registered           // process callback attached to the hardware fence
    | Finished             // processed
    | Detached             // callback removed by a reset

  datatype Job = Job(
    entity: nat,
    sched: nat,
    phase: Phase,
    hwDone: bool,          // the hardware fence has signaled
    scheduled: bool,       // the scheduled fence has signaled
    finished: bool,        // the finished fence has signaled
    handed: set<FenceRef>) // what the dependency callback handed out for it

  datatype Dep = NoDep | Transient(on: FenceRef) | WaitingOn(on: FenceRef)

  /** Where the submitter of an entity stands in `select_rq`, `job_init` and
      `push_job`. */
  datatype SubPc = SubIdle | SawEmpty | SawFence(f: Option<nat>) | MayMove | Decided | Inited(job: nat)

  datatype Entity = Entity(
    rq: nat,                      // the scheduler whose run queue it uses
    movable: bool,                // more than one run queue to choose from
    queue: seq<nat>,
    dep: Dep,
    lastScheduled: Option<nat>,   // the job whose finished fence is stored
    sub: SubPc)

  /** Where a scheduler thread stands in its main loop. */
  datatype ThreadPc =
    | TIdle
    | TSelected(e: nat)
    | TDep(e: nat, f: FenceRef)
    | TReady(e: nat)
    | TStored(e: nat)
    | TPopped(job: nat)
    | TCounted(job: nat)
    | TRan(job: nat)
    | TAnnounced(job: nat)

  datatype Sched = Sched(hwRqCount: int, ring: seq<nat>, thread: ThreadPc)

  datatype State = State(
    entities: seq<Entity>,
    scheds: seq<Sched>,
    jobs: seq<Job>,
    external: set<nat>,     // external fences that have signaled
    limit: nat)             // hw_submission_limit

  datatype Action =
    | SubCheckQueue(e: nat) | SubReadLast(e: nat) | SubTest(e: nat) | SubMove(e: nat, to: nat)
    | SubInit(e: nat) | SubAbort(e: nat) | SubPush(e: nat)
    | Select(k: nat, e: nat) | AskDep(k: nat, f: Option<FenceRef>) | AddCallback(k: nat) | ClearDep(e: nat)
    | StoreLast(k: nat) | Pop(k: nat) | CountIn(k: nat) | RunJob(k: nat, ok: bool) | Announce(k: nat) | Attach(k: nat)
    | HwComplete(k: nat, x: nat) | Detach(k: nat, job: nat) | SignalExternal(x: nat)

  predicate Signaled(s: State, f: FenceRef) {
    match f
    case External(x) => x in s.external
    case OfJob(j, fin) => j < |s.jobs| && (if fin then s.jobs[j].finished else s.jobs[j].scheduled)
  }

  function WithEntity(s: State, e: nat, n: Entity): State
    requires e < |s.entities|
  {
    s.(entities := s.entities[e := n])
  }

  function WithJob(s: State, j: nat, n: Job): State
    requires j < |s.jobs|
  {
    s.(jobs := s.jobs[j := n])
  }

  function WithThread(s: State, k: nat, t: ThreadPc): State
    requires k < |s.scheds|
  {
    s.(scheds := s.scheds[k := s.scheds[k].(thread := t)])
  }

  /** `drm_sched_process_job`: one fewer in flight, finished fence signaled. */
  function Process(s: State, k: nat, j: nat): State
    requires k < |s.scheds| && j < |s.jobs|
  {
    s.(scheds := s.scheds[k := s.scheds[k].(hwRqCount := s.scheds[k].hwRqCount - 1)],
       jobs := s.jobs[j := s.jobs[j].(phase := Finished, finished := true)])
  }

  function StepSubmitter(s: State, a: Action, e: nat): Option<State>
    requires e < |s.entities|
  {
    var n := s.entities[e];
    match a
    case SubCheckQueue(_) =>
      if !n.sub.SubIdle? then None
      else Some(WithEntity(s, e, n.(sub := if n.queue == [] && n.movable then SawEmpty else Decided)))
    case SubReadLast(_) =>
      if n.sub.SawEmpty? then Some(WithEntity(s, e, n.(sub := SawFence(n.lastScheduled)))) else None
    case SubTest(_) =>
      if !n.sub.SawFence? then None
      else
        var busy := n.sub.f.Some? && !Signaled(s, OfJob(n.sub.f.value, true));
        Some(WithEntity(s, e, n.(sub := if busy then Decided else MayMove)))
    case SubMove(_, to) =>
      // the least loaded run queue of the list; any choice is allowed here
      if n.sub.MayMove? && to < |s.scheds| then Some(WithEntity(s, e, n.(rq := to, sub := Decided))) else None
    case SubInit(_) =>
      if !n.sub.Decided? then None
      else
        var job := Job(e, n.rq, Created, false, false, false, {});
        Some(WithEntity(s, e, n.(sub := Inited(|s.jobs|))).(jobs := s.jobs + [job]))
    case SubAbort(_) =>
      if n.sub.Inited? then Some(WithEntity(s, e, n.(sub := SubIdle))) else None
    case SubPush(_) =>
      if !n.sub.Inited? || n.sub.job >= |s.jobs| then None
      else
        var j := n.sub.job;
        Some(WithJob(WithEntity(s, e, n.(queue := n.queue + [j], sub := SubIdle)), j, s.jobs[j].(phase := Queued)))
    case _ => None
  }

  predicate IsReady(n: Entity) {
    n.queue != [] && n.dep.NoDep?
  }

  /** `drm_sched_entity_add_dependency_cb`: ignore the entity's own fences, wait
      only for scheduling on the same scheduler, else wait for the fence. */
  function AddDependencyCb(s: State, k: nat, e: nat, f: FenceRef): State
    requires k < |s.scheds| && e < |s.entities|
  {
    var n := s.entities[e];
    if f.OfJob? && f.job < |s.jobs| && s.jobs[f.job].entity == e then
      WithThread(s, k, TSelected(e))
    else
      var g := if f.OfJob? && f.job < |s.jobs| && s.jobs[f.job].sched == n.rq then OfJob(f.job, false) else f;
      if Signaled(s, g)
      then WithThread(WithEntity(s, e, n.(dep := Transient(g))), k, TSelected(e))
      else WithThread(WithEntity(s, e, n.(dep := WaitingOn(g))), k, TIdle)
  }

  /** The part of the scheduler thread that works on the selected entity. */
  function StepEntity(s: State, a: Action, k: nat): Option<State>
    requires k < |s.scheds|
  {
    var t := s.scheds[k].thread;
    match a
    case Select(_, e) =>
      if t.TIdle? && s.scheds[k].hwRqCount < s.limit && e < |s.entities| && s.entities[e].rq == k && IsReady(s.entities[e])
      then Some(WithThread(s, k, TSelected(e)))
      else None
    case AskDep(_, f) =>
      if !t.TSelected? || t.e >= |s.entities| || s.entities[t.e].queue == [] || s.entities[t.e].queue[0] >= |s.jobs| then None
      else
        var n := s.entities[t.e];
        if f.None? then Some(WithThread(WithEntity(s, t.e, n.(dep := NoDep)), k, TReady(t.e)))
        else if f.value.OfJob? && f.value.job >= |s.jobs| then None
        else
          var h := n.queue[0];
          Some(WithThread(WithJob(WithEntity(s, t.e, n.(dep := Transient(f.value))), h,
                                  s.jobs[h].(handed := s.jobs[h].handed + {f.value})), k, TDep(t.e, f.value)))
    case AddCallback(_) =>
      if t.TDep? && t.e < |s.entities| then Some(AddDependencyCb(s, k, t.e, t.f)) else None
    case StoreLast(_) =>
      if !t.TReady? || t.e >= |s.entities| || s.entities[t.e].queue == [] then None
      else
        var n := s.entities[t.e];
        Some(WithThread(WithEntity(s, t.e, n.(lastScheduled := Some(n.queue[0]))), k, TStored(t.e)))
    case Pop(_) =>
      if !t.TStored? || t.e >= |s.entities| || s.entities[t.e].queue == [] || s.entities[t.e].queue[0] >= |s.jobs| then None
      else
        var n := s.entities[t.e];
        var j := n.queue[0];
        Some(WithThread(WithJob(WithEntity(s, t.e, n.(queue := n.queue[1..])), j, s.jobs[j].(phase := Popped)),
                        k, TPopped(j)))
    case _ => None
  }

  /** What the scheduler thread does to its scheduler c and to job j, b, which it has popped. */
  function JobEffect(c: Sched, b: Job, j: nat, a: Action): Option<(Sched, Job)> {
    match a
    case CountIn(_) =>
      if c.thread == TPopped(j)
      then Some((c.(hwRqCount := c.hwRqCount + 1, thread := TCounted(j)), b.(phase := Counted)))
      else None
    case RunJob(_, ok) =>
      if c.thread == TCounted(j)
      then Some((c.(ring := if ok then c.ring + [j] else c.ring, thread := TRan(j)), b.(phase := Running(ok))))
      else None
    case Announce(_) =>
      if c.thread == TRan(j) && b.phase.Running?
      then Some((c.(thread := TAnnounced(j)), b.(phase := Announced(b.phase.hasFence), scheduled := true)))
      else None
    case Attach(_) =>
      if c.thread != TAnnounced(j) || !b.phase.Announced? then None
      else if b.phase.hasFence && !b.hwDone then Some((c.(thread := TIdle), b.(phase := Registered)))
      else Some((c.(hwRqCount := c.hwRqCount - 1, thread := TIdle), b.(phase := Finished, finished := true)))
    case _ => None
  }

  predicate InHand(t: ThreadPc) {
    t.TPopped? || t.TCounted? || t.TRan? || t.TAnnounced?
  }

  /** The part of the scheduler thread that works on the popped job. */
  function StepJob(s: State, a: Action, k: nat): Option<State>
    requires k < |s.scheds|
  {
    var t := s.scheds[k].thread;
    if !InHand(t) || t.job >= |s.jobs| then None
    else match JobEffect(s.scheds[k], s.jobs[t.job], t.job, a)
      case None => None
      case Some((c, b)) => Some(s.(scheds := s.scheds[k := c], jobs := s.jobs[t.job := b]))
  }

  /** The hardware completes jobs of a ring in the order they were run. */
  function StepHardware(s: State, a: Action): Option<State> {
    match a
    case HwComplete(k, x) =>
      if k < |s.scheds| && x < |s.scheds[k].ring| && s.scheds[k].ring[x] < |s.jobs|
         && !s.jobs[s.scheds[k].ring[x]].hwDone
         && (forall y :: 0 <= y < x ==> s.scheds[k].ring[y] < |s.jobs| && s.jobs[s.scheds[k].ring[y]].hwDone)
      then
        var j := s.scheds[k].ring[x];
        var s1 := WithJob(s, j, s.jobs[j].(hwDone := true));
        Some(if s.jobs[j].phase.Registered? then Process(s1, k, j) else s1)
      else None
    case Detach(k, j) =>
      // the scheduler thread is parked during a reset
      if k < |s.scheds| && s.scheds[k].thread.TIdle? && j < |s.jobs| && s.jobs[j].sched == k && s.jobs[j].phase.Registered?
      then Some(WithJob(s, j, s.jobs[j].(phase := Detached))
                .(scheds := s.scheds[k := s.scheds[k].(hwRqCount := s.scheds[k].hwRqCount - 1)]))
      else None
    case SignalExternal(x) => Some(s.(external := s.external + {x}))
    case ClearDep(e) =>
      if e < |s.entities| && s.entities[e].dep.WaitingOn? && Signaled(s, s.entities[e].dep.on)
      then Some(WithEntity(s, e, s.entities[e].(dep := NoDep)))
      else None
    case _ => None
  }

  function Submitter(a: Action): Option<nat> {
    match a
    case SubCheckQueue(e) => Some(e)
    case SubReadLast(e) => Some(e)
    case SubTest(e) => Some(e)
    case SubMove(e, _) => Some(e)
    case SubInit(e) => Some(e)
    case SubAbort(e) => Some(e)
    case SubPush(e) => Some(e)
    case _ => None
  }

  function ThreadOf(a: Action): Option<nat> {
    match a
    case Select(k, _) => Some(k)
    case AskDep(k, _) => Some(k)
    case AddCallback(k) => Some(k)
    case StoreLast(k) => Some(k)
    case Pop(k) => Some(k)
    case CountIn(k) => Some(k)
    case RunJob(k, _) => Some(k)
    case Announce(k) => Some(k)
    case Attach(k) => Some(k)
    case _ => None
  }

  predicate OnJob(a: Action) {
    a.CountIn? || a.RunJob? || a.Announce? || a.Attach?
  }

  /** One step of the whole system; `None` when it is not enabled. */
  function Step(s: State, a: Action): Option<State> {
    if Submitter(a).Some? then
      (if Submitter(a).value < |s.entities| then StepSubmitter(s, a, Submitter(a).value) else None)
    else if ThreadOf(a).Some? then
      (if ThreadOf(a).value >= |s.scheds| then None
       else if OnJob(a) then StepJob(s, a, ThreadOf(a).value)
       else StepEntity(s, a, ThreadOf(a).value))
    else StepHardware(s, a)
  }

  /** Idle schedulers and idle entities, nothing submitted. */
  predicate Init(s: State) {
    && s.jobs == [] && s.external == {}
    && (forall e :: 0 <= e < |s.entities| ==>
          s.entities[e].rq < |s.scheds| && s.entities[e].queue == [] && s.entities[e].dep == NoDep
          && s.entities[e].lastScheduled == None && s.entities[e].sub == SubIdle)
    && (forall k :: 0 <= k < |s.scheds| ==> s.scheds[k] == Sched(0, [], TIdle))
  }
}
