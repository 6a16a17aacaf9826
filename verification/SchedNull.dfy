/** A run in which a job without a hardware fence overtakes an earlier job of
    its entity, and the entity then moves with that job still on the old ring. */
module SchedNull {
  import opened Wrappers
  import opened SchedModel
  import opened SchedInv
  import opened SchedMain
  import opened SchedOrder

  ghost predicate Reaches(s: State, t: State) {
    exists acts: seq<Action> :: Run(s, acts) == Some(t)
  }

  lemma {:induction false} RunOneMore(s: State, acts: seq<Action>, a: Action)
    requires Run(s, acts).Some? && Step(Run(s, acts).value, a).Some?
    ensures Run(s, acts + [a]) == Step(Run(s, acts).value, a)
    decreases |acts|
  {
    if acts == [] {
      assert (acts + [a])[1..] == [];
    } else {
      assert (acts + [a])[1..] == acts[1..] + [a];
      RunOneMore(Step(s, acts[0]).value, acts[1..], a);
    }
  }

  /** Equal component by component. */
  ghost predicate Same(t: State, u: State) {
    && t.external == u.external && t.limit == u.limit
    && |t.entities| == |u.entities| && (forall e :: 0 <= e < |t.entities| ==> t.entities[e] == u.entities[e])
    && |t.scheds| == |u.scheds| && (forall k :: 0 <= k < |t.scheds| ==> t.scheds[k] == u.scheds[k])
    && |t.jobs| == |u.jobs| && (forall j :: 0 <= j < |t.jobs| ==> t.jobs[j] == u.jobs[j])
  }

  lemma Go(s: State, t: State, a: Action, u: State)
    requires Reaches(s, t) && Step(t, a).Some? && Same(Step(t, a).value, u)
    ensures Reaches(s, u)
  {
    var acts :| Run(s, acts) == Some(t);
    RunOneMore(s, acts, a);
    var v := Step(t, a).value;
    assert v.entities == u.entities && v.scheds == u.scheds && v.jobs == u.jobs;
    assert Run(s, acts + [a]) == Some(u);
  }

  /** One entity that may use either of two schedulers. */
  function Start(): State {
    State([Entity(0, true, [], NoDep, None, SubIdle)], [Sched(0, [], TIdle), Sched(0, [], TIdle)], [], {}, 2)
  }

  /** The entity between jobs. */
  function Settled(rq: nat, last: Option<nat>, sub: SubPc, count: int, ring: seq<nat>, jobs: seq<Job>): State {
    State([Entity(rq, true, [], NoDep, last, sub)], [Sched(count, ring, TIdle), Sched(0, [], TIdle)], jobs, {}, 2)
  }

  /** Job j waits in the queue on scheduler 0, or the thread of scheduler 0 has it. */
  function Under(j: nat, last: Option<nat>, sub: SubPc, queued: bool, count: int, ring: seq<nat>, t: ThreadPc,
                 jobs: seq<Job>): State {
    State([Entity(0, true, if queued then [j] else [], NoDep, last, sub)],
          [Sched(count, ring, t), Sched(0, [], TIdle)], jobs, {}, 2)
  }

  function Fresh(p: Phase): Job {
    Job(0, 0, p, false, false, false, {})
  }

  /** The submitter finds the queue empty and reads the last job. */
  lemma LookAround(s: State, last: Option<nat>, count: int, ring: seq<nat>, jobs: seq<Job>)
    requires Reaches(s, Settled(0, last, SubIdle, count, ring, jobs))
    ensures Reaches(s, Settled(0, last, SawFence(last), count, ring, jobs))
  {
    Go(s, Settled(0, last, SubIdle, count, ring, jobs), SubCheckQueue(0), Settled(0, last, SawEmpty, count, ring, jobs));
    Go(s, Settled(0, last, SawEmpty, count, ring, jobs), SubReadLast(0),
       Settled(0, last, SawFence(last), count, ring, jobs));
  }

  lemma Test(s: State, last: Option<nat>, count: int, ring: seq<nat>, jobs: seq<Job>, pc: SubPc)
    requires Reaches(s, Settled(0, last, SawFence(last), count, ring, jobs))
    requires pc == if last.Some? && !Signaled(Settled(0, last, SawFence(last), count, ring, jobs), OfJob(last.value, true))
                   then Decided else MayMove
    ensures Reaches(s, Settled(0, last, pc, count, ring, jobs))
  {
    Go(s, Settled(0, last, SawFence(last), count, ring, jobs), SubTest(0), Settled(0, last, pc, count, ring, jobs));
  }

  lemma Move(s: State, to: nat, last: Option<nat>, count: int, ring: seq<nat>, jobs: seq<Job>)
    requires to < 2 && Reaches(s, Settled(0, last, MayMove, count, ring, jobs))
    ensures Reaches(s, Settled(to, last, Decided, count, ring, jobs))
  {
    Go(s, Settled(0, last, MayMove, count, ring, jobs), SubMove(0, to), Settled(to, last, Decided, count, ring, jobs));
  }

  lemma Submit(s: State, last: Option<nat>, count: int, ring: seq<nat>, jobs: seq<Job>)
    requires Reaches(s, Settled(0, last, Decided, count, ring, jobs))
    ensures Reaches(s, Under(|jobs|, last, SubIdle, true, count, ring, TIdle, jobs + [Fresh(Queued)]))
  {
    var j := |jobs|;
    var s1 := Under(j, last, Inited(j), false, count, ring, TIdle, jobs + [Fresh(Created)]);
    Go(s, Settled(0, last, Decided, count, ring, jobs), SubInit(0), s1);
    Go(s, s1, SubPush(0), Under(j, last, SubIdle, true, count, ring, TIdle, jobs + [Fresh(Queued)]));
  }

  lemma Take(s: State, last: Option<nat>, count: int, ring: seq<nat>, jobs: seq<Job>)
    requires 0 <= count < 2
    requires Reaches(s, Under(|jobs|, last, SubIdle, true, count, ring, TIdle, jobs + [Fresh(Queued)]))
    ensures Reaches(s, Under(|jobs|, last, SubIdle, true, count, ring, TReady(0), jobs + [Fresh(Queued)]))
  {
    var s2 := Under(|jobs|, last, SubIdle, true, count, ring, TIdle, jobs + [Fresh(Queued)]);
    var s3 := Under(|jobs|, last, SubIdle, true, count, ring, TSelected(0), jobs + [Fresh(Queued)]);
    Go(s, s2, Select(0, 0), s3);
    Go(s, s3, AskDep(0, None), Under(|jobs|, last, SubIdle, true, count, ring, TReady(0), jobs + [Fresh(Queued)]));
  }

  lemma StoreAndPop(s: State, last: Option<nat>, count: int, ring: seq<nat>, jobs: seq<Job>)
    requires Reaches(s, Under(|jobs|, last, SubIdle, true, count, ring, TReady(0), jobs + [Fresh(Queued)]))
    ensures Reaches(s, Under(|jobs|, Some(|jobs|), SubIdle, false, count, ring, TPopped(|jobs|), jobs + [Fresh(Popped)]))
  {
    var j := |jobs|;
    var s4 := Under(j, last, SubIdle, true, count, ring, TReady(0), jobs + [Fresh(Queued)]);
    var s5 := Under(j, Some(j), SubIdle, true, count, ring, TStored(0), jobs + [Fresh(Queued)]);
    Go(s, s4, StoreLast(0), s5);
    Go(s, s5, Pop(0), Under(j, Some(j), SubIdle, false, count, ring, TPopped(j), jobs + [Fresh(Popped)]));
  }

  /** From a decided submitter to a popped job. */
  lemma SubmitAndPop(s: State, last: Option<nat>, count: int, ring: seq<nat>, jobs: seq<Job>)
    requires 0 <= count < 2 && Reaches(s, Settled(0, last, Decided, count, ring, jobs))
    ensures Reaches(s, Under(|jobs|, Some(|jobs|), SubIdle, false, count, ring, TPopped(|jobs|), jobs + [Fresh(Popped)]))
  {
    Submit(s, last, count, ring, jobs);
    Take(s, last, count, ring, jobs);
    StoreAndPop(s, last, count, ring, jobs);
  }

  lemma CountPopped(s: State, j: nat, count: int, ring: seq<nat>, jobs: seq<Job>)
    requires j == |jobs|
    requires Reaches(s, Under(j, Some(j), SubIdle, false, count, ring, TPopped(j), jobs + [Fresh(Popped)]))
    ensures Reaches(s, Under(j, Some(j), SubIdle, false, count + 1, ring, TCounted(j), jobs + [Fresh(Counted)]))
  {
    Go(s, Under(j, Some(j), SubIdle, false, count, ring, TPopped(j), jobs + [Fresh(Popped)]), CountIn(0),
       Under(j, Some(j), SubIdle, false, count + 1, ring, TCounted(j), jobs + [Fresh(Counted)]));
  }

  lemma RunCounted(s: State, j: nat, ok: bool, count: int, ring: seq<nat>, jobs: seq<Job>)
    requires j == |jobs|
    requires Reaches(s, Under(j, Some(j), SubIdle, false, count, ring, TCounted(j), jobs + [Fresh(Counted)]))
    ensures Reaches(s, Under(j, Some(j), SubIdle, false, count, if ok then ring + [j] else ring, TRan(j),
                             jobs + [Fresh(Running(ok))]))
  {
    Go(s, Under(j, Some(j), SubIdle, false, count, ring, TCounted(j), jobs + [Fresh(Counted)]), RunJob(0, ok),
       Under(j, Some(j), SubIdle, false, count, if ok then ring + [j] else ring, TRan(j), jobs + [Fresh(Running(ok))]));
  }

  lemma AnnounceRan(s: State, j: nat, ok: bool, count: int, ring: seq<nat>, jobs: seq<Job>)
    requires j == |jobs|
    requires Reaches(s, Under(j, Some(j), SubIdle, false, count, ring, TRan(j), jobs + [Fresh(Running(ok))]))
    ensures Reaches(s, Under(j, Some(j), SubIdle, false, count, ring, TAnnounced(j),
                             jobs + [Fresh(Announced(ok)).(scheduled := true)]))
  {
    Go(s, Under(j, Some(j), SubIdle, false, count, ring, TRan(j), jobs + [Fresh(Running(ok))]), Announce(0),
       Under(j, Some(j), SubIdle, false, count, ring, TAnnounced(j), jobs + [Fresh(Announced(ok)).(scheduled := true)]));
  }

  /** From a popped job to the point where its fence, or its absence, is looked at. */
  lemma RunAndAnnounce(s: State, j: nat, ok: bool, count: int, ring: seq<nat>, jobs: seq<Job>)
    requires j == |jobs|
    requires Reaches(s, Under(j, Some(j), SubIdle, false, count, ring, TPopped(j), jobs + [Fresh(Popped)]))
    ensures Reaches(s, Under(j, Some(j), SubIdle, false, count + 1, if ok then ring + [j] else ring, TAnnounced(j),
                             jobs + [Fresh(Announced(ok)).(scheduled := true)]))
  {
    CountPopped(s, j, count, ring, jobs);
    RunCounted(s, j, ok, count + 1, ring, jobs);
    AnnounceRan(s, j, ok, count + 1, if ok then ring + [j] else ring, jobs);
  }

  const OnRing: Job := Fresh(Registered).(scheduled := true)
  const Skipped: Job := Fresh(Finished).(scheduled := true, finished := true)

  /** A job with a fence is registered; one without finishes at once. */
  lemma AttachJob(s: State, j: nat, ok: bool, count: int, ring: seq<nat>, jobs: seq<Job>)
    requires j == |jobs|
    requires Reaches(s, Under(j, Some(j), SubIdle, false, count, ring, TAnnounced(j),
                              jobs + [Fresh(Announced(ok)).(scheduled := true)]))
    ensures Reaches(s, Settled(0, Some(j), SubIdle, if ok then count else count - 1, ring,
                               jobs + [if ok then OnRing else Skipped]))
  {
    Go(s, Under(j, Some(j), SubIdle, false, count, ring, TAnnounced(j), jobs + [Fresh(Announced(ok)).(scheduled := true)]),
       Attach(0),
       Settled(0, Some(j), SubIdle, if ok then count else count - 1, ring, jobs + [if ok then OnRing else Skipped]));
  }

  /** The first job is popped. */
  lemma FirstPopped(s: State, none: seq<Job>, empty: seq<nat>, last: Option<nat>, z: nat)
    requires s == Start() && none == [] && empty == [] && last == None && z == 0
    ensures Reaches(s, Under(|none|, Some(|none|), SubIdle, false, z, empty, TPopped(|none|), none + [Fresh(Popped)]))
  {
    assert Run(s, []) == Some(s);
    assert Reaches(s, Settled(0, last, SubIdle, z, empty, none));
    LookAround(s, last, z, empty, none);
    Test(s, last, z, empty, none, MayMove);
    Move(s, 0, last, z, empty, none);
    SubmitAndPop(s, last, z, empty, none);
  }

  /** It reaches the hardware and stays there. */
  lemma FirstJob(s: State, none: seq<Job>, empty: seq<nat>, z: nat)
    requires s == Start() && none == [] && empty == [] && z == 0
    ensures Reaches(s, Settled(0, Some(z), SubIdle, 1, empty + [z], none + [OnRing]))
  {
    FirstAnnounced(s, none, empty, z);
    AttachJob(s, z, true, z + 1, empty + [z], none);
  }

  lemma FirstAnnounced(s: State, none: seq<Job>, empty: seq<nat>, z: nat)
    requires s == Start() && none == [] && empty == [] && z == 0
    ensures Reaches(s, Under(z, Some(z), SubIdle, false, z + 1, empty + [z], TAnnounced(z),
                             none + [Fresh(Announced(true)).(scheduled := true)]))
  {
    FirstPopped(s, none, empty, None, z);
    RunAndAnnounce(s, z, true, z, empty, none);
  }

  /** The second job gets no fence and finishes at once. */
  lemma SecondJob(s: State, one: seq<Job>, ring: seq<nat>)
    requires one == [OnRing] && ring == [0] && Reaches(s, Settled(0, Some(0), SubIdle, 1, ring, one))
    ensures Reaches(s, Settled(0, Some(1), SubIdle, 1, ring, one + [Skipped]))
  {
    LookAround(s, Some(0), 1, ring, one);
    Test(s, Some(0), 1, ring, one, Decided);
    SubmitAndPop(s, Some(0), 1, ring, one);
    RunAndAnnounce(s, 1, false, 1, ring, one);
    AttachJob(s, 1, false, 2, ring, one);
  }

  /** The order promise does fail: from an idle system, a run in which the second
      job of an entity has finished while the first is on the ring, and after
      which the entity has moved to another scheduler all the same. */
  lemma NoFenceOvertakes()
    ensures Init(Start())
    ensures exists t: State ::
              Reaches(Start(), t) && !Ordered(t) && |t.entities| == 1 && t.entities[0].rq == 1
              && |t.jobs| == 2 && t.jobs[0].sched == 0 && !Done(t.jobs[0])
  {
    var s := Start();
    FirstJob(s, [], [], 0);
    var one, ring := [OnRing], [0];
    assert [] + one == one && [] + ring == ring;
    SecondJob(s, one, ring);
    var jobs := one + [Skipped];
    LookAround(s, Some(1), 1, ring, jobs);
    Test(s, Some(1), 1, ring, jobs, MayMove);
    Move(s, 1, Some(1), 1, ring, jobs);
    var t := Settled(1, Some(1), Decided, 1, ring, jobs);
    assert Pushed(t, 0) && Pushed(t, 1) && t.jobs[1].finished && !Done(t.jobs[0]);
  }
}
