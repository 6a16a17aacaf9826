/** When a job may run on stale translations: exactly which grabs open the way, over every
    run, and which steps of the driver lead up to such a grab. */
module VmidTlb {
  import opened Wrappers
  import V = Vmid
  import opened VmidRings

  // ---- Updates in order ----

  predicate Sorted(xs: seq<Item>) {
    forall p, p' :: 0 <= p < p' < |xs| && xs[p].Update? && xs[p'].Update? && xs[p].update.context == xs[p'].update.context ==>
      xs[p].update.seqno < xs[p'].update.seqno
  }

  /** Of each context, the updates on a ring come after all those complete. */
  predicate Later(xs: seq<Item>, complete: set<V.Fence>) {
    forall f, p :: f in complete && 0 <= p < |xs| && xs[p].Update? && xs[p].update.context == f.context ==>
      f.seqno < xs[p].update.seqno
  }

  predicate AtHome(xs: seq<Item>, r: nat, z: Setup) {
    forall p :: 0 <= p < |xs| && xs[p].Update? ==> z.home(xs[p].update.context) == r
  }

  /** With an update, all complete ones before it are covered. */
  predicate Closed(covered: set<V.Fence>, complete: set<V.Fence>) {
    forall f, g :: f in covered && g in complete && f.context == g.context && g.seqno <= f.seqno ==> g in covered
  }

  predicate RingTimely(xs: seq<Item>, r: nat, complete: set<V.Fence>, z: Setup) {
    Sorted(xs) && Later(xs, complete) && AtHome(xs, r, z)
  }

  ghost predicate Timely(w: World, z: Setup) {
    && (forall r :: 0 <= r < |w.rings| ==> RingTimely(w.rings[r], r, w.complete, z))
    && (forall i :: 0 <= i < |w.tlb| ==> Closed(w.tlb[i].covered, w.complete))
  }

  lemma TimelyIssue(xs: seq<Item>, r: nat, complete: set<V.Fence>, z: Setup, u: V.Fence)
    requires RingTimely(xs, r, complete, z) && Newest(xs, complete, u) && z.home(u.context) == r
    ensures RingTimely(xs + [Update(u)], r, complete, z)
  {
  }

  lemma TimelyCommands(xs: seq<Item>, r: nat, complete: set<V.Fence>, z: Setup, j: Job, f: V.Fence)
    requires RingTimely(xs, r, complete, z)
    ensures RingTimely(xs + Commands(j, f), r, complete, z)
  {
  }

  lemma TimelyPop(xs: seq<Item>, r: nat, complete: set<V.Fence>, z: Setup)
    requires RingTimely(xs, r, complete, z) && xs != []
    ensures RingTimely(xs[1..], r, Completed(complete, xs[0]), z)
  {
    var ys := xs[1..];
    assert forall p :: 0 <= p < |ys| ==> ys[p] == xs[p + 1];
  }

  lemma TimelyOther(xs: seq<Item>, r: nat, ys: seq<Item>, o: nat, complete: set<V.Fence>, z: Setup)
    requires RingTimely(xs, r, complete, z) && RingTimely(ys, o, complete, z) && xs != [] && r != o
    ensures RingTimely(ys, o, Completed(complete, xs[0]), z)
  {
  }

  lemma ClosedAfter(t: Tlb, i: nat, x: Item, complete: set<V.Fence>)
    requires Closed(t.covered, complete) && t.covered <= complete && Later([x], complete)
    ensures var t' := After(t, i, x, complete); Closed(t'.covered, Completed(complete, x))
  {
    if x.Update? {
      assert [x][0] == x;
    }
  }

  lemma TimelyExecute(w: World, r: nat, z: Setup)
    requires Inv(w) && Timely(w, z) && r < |w.rings| && w.rings[r] != []
    ensures Timely(Next(w, Execute(r)), z)
  {
    var v, xs := Next(w, Execute(r)), w.rings[r];
    assert RingTimely(xs, r, w.complete, z);
    forall o | 0 <= o < |v.rings|
      ensures RingTimely(v.rings[o], o, v.complete, z)
    {
      if o == r {
        TimelyPop(xs, r, w.complete, z);
      } else {
        TimelyOther(xs, r, w.rings[o], o, w.complete, z);
      }
    }
    forall i | 0 <= i < |v.tlb|
      ensures Closed(v.tlb[i].covered, v.complete)
    {
      assert w.tlb[i].covered <= w.complete && Closed(w.tlb[i].covered, w.complete);
      ClosedAfter(w.tlb[i], i, xs[0], w.complete);
    }
  }

  lemma TimelyNext(w: World, e: Event, z: Setup)
    requires Inv(w) && Timely(w, z) && Allowed(w, e, z)
    ensures Timely(Next(w, e), z)
  {
    match e
    case Issue(u, r) => TimelyIssue(w.rings[r], r, w.complete, z, u);
    case Grant(q) =>
    case RunJob(k, f) =>
      var j := w.pending[k];
      TimelyCommands(w.rings[j.ring], j.ring, w.complete, z, j, f);
    case Execute(r) => TimelyExecute(w, r, z);
    case Manage(a) =>
  }

  /** u comes before F, if F comes at all. */
  predicate LedBy(xs: seq<Item>, u: V.Fence, f: V.Fence) {
    xs == [] || xs[0] == Update(u) || (xs[0] != Update(f) && LedBy(xs[1..], u, f))
  }

  lemma {:induction false} SortedLed(xs: seq<Item>, u: V.Fence, f: V.Fence)
    requires Sorted(xs) && Update(u) in xs && u.context == f.context && u.seqno <= f.seqno
    ensures LedBy(xs, u, f)
    decreases |xs|
  {
    if xs[0] != Update(u) {
      assert forall p :: 0 <= p < |xs[1..]| ==> xs[1..][p] == xs[p + 1];
      var k :| 0 <= k < |xs| && xs[k] == Update(u);
      assert xs[0] != Update(f);
      assert xs[1..][k - 1] == Update(u);
      SortedLed(xs[1..], u, f);
    }
  }

  /** What is good for a job with update f is good for one of the same user with an earlier update. */
  lemma {:induction false} CoverEarlier(t: Tlb, xs: seq<Item>, v: Job, j: Job, u: V.Fence, f: V.Fence, c: set<V.Fence>)
    requires Cover(t, xs, v, c) && v.use == j.use && v.updates == Some(f) && j.updates == Some(u)
    requires (f in t.covered ==> u in t.covered) && (f in c ==> u in c) && (u in c || LedBy(xs, u, f))
    ensures Cover(t, xs, j, c)
    decreases |xs|
  {
    if xs != [] {
      CoverEarlier(After(t, j.use.id, xs[0], c), xs[1..], v, j, u, f, Completed(c, xs[0]));
    }
  }

  // ---- What the driver's records are worth ----

  /** Whatever an id records as flushed, its last flush comes after. */
  ghost predicate Backed(w: World)
    requires |w.tlb| == |w.s.ids|
  {
    forall i :: 0 <= i < |w.s.ids| ==> IdOk(w.s.ids[i], i, w.tlb[i], w.complete, w.rings, w.s.ids[i].flushed)
  }

  /** Whatever an id records as flushed has been issued. */
  ghost predicate Recorded(w: World) {
    forall i :: 0 <= i < |w.s.ids| ==> OnSomeRing(w.rings, w.complete, w.s.ids[i].flushed)
  }

  ghost predicate OnSomeRing(rings: seq<seq<Item>>, complete: set<V.Fence>, u: Option<V.Fence>) {
    u.None? || u.value in complete || exists r :: 0 <= r < |rings| && Update(u.value) in rings[r]
  }

  ghost predicate Strong(w: World, z: Setup) {
    Inv(w) && V.OnTimeline(w.s, z.timeline) && Timely(w, z) && Recorded(w) && Backed(w)
  }

  /** A flush goes on the job's ring, to be the last flush of an id whose recorded update is
      neither complete nor ahead on that ring. */
  predicate Hasty(w: World, k: nat) {
    && k < |w.pending|
    && var j := w.pending[k];
       && j.flush && j.use.id < |w.s.ids| && j.ring < |w.rings|
       && var id := w.s.ids[j.use.id];
          && id.owner == j.use.vm && id.pd == j.use.pd
          && !Ready(w.rings[j.ring], w.complete, id.flushed)
  }

  /** In such a world no grab skips a flush it needs. */
  lemma NoSkip(w: World, q: V.Request, z: Setup)
    requires Strong(w, z) && AllowedGrant(w, q, z)
    ensures !Skips(w, q)
  {
    var r := V.Grab(w.s, q).1;
    if r.Granted? && !r.flush && q.updates.Some? {
      V.NoFlushIff(w.s, q);
      var j, id := GrantedJob(q, r), w.s.ids[r.id];
      var u, f := q.updates.value, id.flushed.value;
      assert IdOk(id, r.id, w.tlb[r.id], w.complete, w.rings, id.flushed);
      UsableServes(w, q, z, r.id, id.flushed);
      EarlierToo(w, z, q.ring, r.id, u, f);
      CoverEarlier(w.tlb[r.id], w.rings[q.ring], OwnerJob(id, r.id, id.flushed), j, u, f, w.complete);
      GrantedGoodIff(w, q, z);
    }
  }

  lemma EarlierToo(w: World, z: Setup, r: nat, i: nat, u: V.Fence, f: V.Fence)
    requires Inv(w) && Timely(w, z) && r < |w.rings| && i < |w.tlb|
    requires Ready(w.rings[r], w.complete, Some(u)) && u.context == f.context && u.seqno <= f.seqno
    ensures (f in w.tlb[i].covered ==> u in w.tlb[i].covered) && (f in w.complete ==> u in w.complete)
    ensures u in w.complete || LedBy(w.rings[r], u, f)
  {
    assert Closed(w.tlb[i].covered, w.complete) && w.tlb[i].covered <= w.complete;
    assert RingTimely(w.rings[r], r, w.complete, z);
    if u !in w.complete {
      SortedLed(w.rings[r], u, f);
    }
  }

  /** A job put on its ring leaves every record backed if and only if it is not hasty. */
  lemma RunBackedIff(w: World, k: nat, f: V.Fence, z: Setup)
    requires Inv(w) && Backed(w) && Allowed(w, RunJob(k, f), z)
    ensures |Next(w, RunJob(k, f)).tlb| == |Next(w, RunJob(k, f)).s.ids|
    ensures Backed(Next(w, RunJob(k, f))) <==> !Hasty(w, k)
  {
    var v := Next(w, RunJob(k, f));
    assert PendingOk(w, w.pending[k]);
    forall i | 0 <= i < |v.s.ids|
      ensures IdOk(v.s.ids[i], i, v.tlb[i], v.complete, v.rings, v.s.ids[i].flushed) <==>
              !(Hasty(w, k) && w.pending[k].use.id == i)
    {
      RunIdIff(w, k, f, i, w.s.ids[i].flushed);
    }
  }

  lemma GrantBacked(w: World, q: V.Request)
    requires Inv(w) && Backed(w)
    ensures |Next(w, Grant(q)).tlb| == |Next(w, Grant(q)).s.ids| && Backed(Next(w, Grant(q)))
  {
    var v := Next(w, Grant(q));
    V.GrabShape(w.s, q);
    forall i | 0 <= i < |v.s.ids|
      ensures IdOk(v.s.ids[i], i, v.tlb[i], v.complete, v.rings, v.s.ids[i].flushed)
    {
      GrabChanges(w.s, q, i);
      GrantKeepsId(w, q, i, w.s.ids[i].flushed);
    }
  }

  lemma ManageBacked(w: World, a: V.Action)
    requires Inv(w) && Backed(w) && (a.DoAlloc? || a.DoFree? || a.DoReset?)
    ensures |w.tlb| == |V.Step(w.s, a).ids| && Backed(w.(s := V.Step(w.s, a)))
  {
    var v := w.(s := V.Step(w.s, a));
    ManageChanges(w.s, a);
    forall i | 0 <= i < |v.s.ids|
      ensures IdOk(v.s.ids[i], i, v.tlb[i], v.complete, v.rings, v.s.ids[i].flushed)
    {
      ManageKeepsId(w, a, i, w.s.ids[i].flushed);
    }
  }

  lemma NextBacked(w: World, e: Event, z: Setup)
    requires Inv(w) && Backed(w) && Allowed(w, e, z) && !(e.RunJob? && Hasty(w, e.k))
    ensures |Next(w, e).tlb| == |Next(w, e).s.ids| && Backed(Next(w, e))
  {
    var v := Next(w, e);
    match e
    case Issue(u, r) =>
      forall i | 0 <= i < |v.s.ids|
        ensures IdOk(v.s.ids[i], i, v.tlb[i], v.complete, v.rings, v.s.ids[i].flushed)
      {
        IssueKeepsId(w, u, r, i, w.s.ids[i].flushed);
      }
    case Grant(q) => GrantBacked(w, q);
    case RunJob(k, f) => RunBackedIff(w, k, f, z);
    case Execute(r) =>
      forall i | 0 <= i < |v.s.ids|
        ensures IdOk(v.s.ids[i], i, v.tlb[i], v.complete, v.rings, v.s.ids[i].flushed)
      {
        ExecuteKeepsId(w, r, i, w.s.ids[i].flushed);
      }
    case Manage(a) => ManageBacked(w, a);
  }

  lemma StaysOnRing(w: World, e: Event, z: Setup, u: Option<V.Fence>)
    requires V.InRange(w.s) && Allowed(w, e, z) && OnSomeRing(w.rings, w.complete, u)
    ensures OnSomeRing(Next(w, e).rings, Next(w, e).complete, u)
  {
    var v := Next(w, e);
    if u.Some? && u.value !in w.complete {
      var r :| 0 <= r < |w.rings| && Update(u.value) in w.rings[r];
      if Update(u.value) !in v.rings[r] {
        assert e == Execute(r) && w.rings[r] == [w.rings[r][0]] + v.rings[r];
      }
    }
  }

  lemma NextRecorded(w: World, e: Event, z: Setup)
    requires Inv(w) && Recorded(w) && Allowed(w, e, z)
    ensures Recorded(Next(w, e))
  {
    var v := Next(w, e);
    forall i | 0 <= i < |v.s.ids|
      ensures OnSomeRing(v.rings, v.complete, v.s.ids[i].flushed)
    {
      NextFlushed(w, e, z, i);
      StaysOnRing(w, e, z, w.s.ids[i].flushed);
    }
  }

  lemma NextFlushed(w: World, e: Event, z: Setup, i: nat)
    requires V.InRange(w.s) && Allowed(w, e, z) && i < |Next(w, e).s.ids|
    ensures var v := Next(w, e);
            && i < |w.s.ids|
            && (v.s.ids[i].flushed == w.s.ids[i].flushed
                || (e.Grant? && v.rings == w.rings && v.complete == w.complete && v.s.ids[i].flushed == e.q.updates))
  {
    match e
    case Issue(_, _) =>
    case Grant(q) =>
      V.GrabShape(w.s, q);
      GrabChanges(w.s, q, i);
    case RunJob(_, _) =>
    case Execute(_) =>
    case Manage(a) => ManageChanges(w.s, a);
  }

  ghost predicate TakesForeign(w: World, e: Event, z: Setup)
    requires V.InRange(w.s)
  {
    e.Grant? && V.TakesForeign(w.s, V.DoGrab(e.q), z.timeline)
  }

  lemma NextTimeline(w: World, e: Event, z: Setup)
    requires Inv(w) && V.OnTimeline(w.s, z.timeline) && Allowed(w, e, z) && !TakesForeign(w, e, z)
    ensures V.OnTimeline(Next(w, e).s, z.timeline)
  {
    match e
    case Issue(_, _) =>
    case Grant(q) => V.StepTimelineIff(w.s, V.DoGrab(q), z.timeline);
    case RunJob(k, f) => V.StepTimelineIff(w.s, V.DoFlush(w.pending[k].use.id, f), z.timeline);
    case Execute(_) =>
    case Manage(a) => V.StepTimelineIff(w.s, a, z.timeline);
  }

  /** Neither a race, nor a foreign take, nor a hasty flush. */
  ghost predicate Careful(w: World, e: Event, z: Setup)
    requires V.InRange(w.s)
  {
    !Races(w, e) && !TakesForeign(w, e, z) && !(e.RunJob? && Hasty(w, e.k))
  }

  lemma NextStrong(w: World, e: Event, z: Setup)
    requires Strong(w, z) && Allowed(w, e, z) && Careful(w, e, z)
    ensures Strong(Next(w, e), z)
  {
    if e.Grant? {
      NoSkip(w, e.q, z);
    }
    NextKeeps(w, e, z);
    NextTimeline(w, e, z);
    TimelyNext(w, e, z);
    NextRecorded(w, e, z);
    NextBacked(w, e, z);
  }

  // ---- Whole runs ----

  function Run(w: World, es: seq<Event>): Option<World>
    decreases |es|
  {
    if es == [] then Some(w)
    else if !V.InRange(w.s) then None
    else Run(Next(w, es[0]), es[1..])
  }

  /** Every step is allowed. */
  ghost predicate AllowedRun(w: World, es: seq<Event>, z: Setup)
    decreases |es|
  {
    es == [] || (V.InRange(w.s) && Allowed(w, es[0], z) && AllowedRun(Next(w, es[0]), es[1..], z))
  }

  ghost predicate CarefulRun(w: World, es: seq<Event>, z: Setup)
    decreases |es|
  {
    es == [] || (V.InRange(w.s) && Careful(w, es[0], z) && CarefulRun(Next(w, es[0]), es[1..], z))
  }

  /** No grab of the run races or skips a flush it needs. */
  ghost predicate SoundRun(w: World, es: seq<Event>)
    decreases |es|
  {
    es == [] || (V.InRange(w.s) && !Races(w, es[0]) && !SkipsFlush(w, es[0]) && SoundRun(Next(w, es[0]), es[1..]))
  }

  lemma {:induction false} SoundKeeps(w: World, es: seq<Event>, z: Setup)
    requires Inv(w) && AllowedRun(w, es, z) && SoundRun(w, es)
    ensures Run(w, es).Some? && Inv(Run(w, es).value)
    decreases |es|
  {
    if es != [] {
      NextKeeps(w, es[0], z);
      SoundKeeps(Next(w, es[0]), es[1..], z);
    }
  }

  /** A careful run skips no flush that is needed. */
  lemma {:induction false} CarefulIsSound(w: World, es: seq<Event>, z: Setup)
    requires Strong(w, z) && AllowedRun(w, es, z) && CarefulRun(w, es, z)
    ensures SoundRun(w, es) && Run(w, es).Some? && Strong(Run(w, es).value, z)
    decreases |es|
  {
    if es != [] {
      if es[0].Grant? {
        NoSkip(w, es[0].q, z);
      }
      NextStrong(w, es[0], z);
      CarefulIsSound(Next(w, es[0]), es[1..], z);
    }
  }

  predicate Start(w: World) {
    && V.Init(w.s) && w.pending == [] && |w.tlb| == |w.s.ids| && w.complete == {}
    && (forall i :: 0 <= i < |w.tlb| ==> w.tlb[i] == Tlb(0, 0, {}))
    && forall r :: 0 <= r < |w.rings| ==> w.rings[r] == []
  }

  lemma StartStrong(w: World, z: Setup)
    requires Start(w)
    ensures Strong(w, z)
  {
    V.InitPlaced(w.s);
  }

  /** No stale translation: throughout every run in which no grab races or takes a foreign record and no flush
      is hasty, with the rings executing at any pace, a ring that has come to a job finds its
      id flushed for the job's own VM and page directory after the job's last update was
      complete, whether the job asked for the flush or not; and no grab skips a flush it needs. */
  lemma NeverStale(w: World, es: seq<Event>, z: Setup)
    requires Start(w) && AllowedRun(w, es, z) && CarefulRun(w, es, z)
    ensures SoundRun(w, es) && Run(w, es).Some? && V.InRange(Run(w, es).value.s) && !Stale(Run(w, es).value)
  {
    StartStrong(w, z);
    CarefulIsSound(w, es, z);
    InvNotStale(Run(w, es).value);
  }

  // ---- The exact condition ----

  /** An allowed run of sound grabs from w to v. */
  ghost predicate Leads(w: World, es: seq<Event>, v: World, z: Setup) {
    AllowedRun(w, es, z) && SoundRun(w, es) && Run(w, es) == Some(v)
  }

  ghost predicate Reaches(w: World, v: World, z: Setup) {
    exists es: seq<Event> :: Leads(w, es, v, z)
  }

  ghost predicate CanGoStale(w: World, z: Setup) {
    exists v: World :: Reaches(w, v, z) && Stale(v)
  }

  lemma {:induction false} LeadsAppend(w: World, es: seq<Event>, v: World, es': seq<Event>, v': World, z: Setup)
    requires Leads(w, es, v, z) && Leads(v, es', v', z)
    ensures Leads(w, es + es', v', z)
    decreases |es|
  {
    if es == [] {
      assert es + es' == es';
    } else {
      assert (es + es')[1..] == es[1..] + es';
      LeadsAppend(Next(w, es[0]), es[1..], v, es', v', z);
    }
  }

  lemma ReachesTrans(w: World, v: World, v': World, z: Setup)
    requires Reaches(w, v, z) && Reaches(v, v', z)
    ensures Reaches(w, v', z)
  {
    var es :| Leads(w, es, v, z);
    var es' :| Leads(v, es', v', z);
    LeadsAppend(w, es, v, es', v', z);
  }

  lemma OneStep(v: World, e: Event, z: Setup)
    requires V.InRange(v.s) && Allowed(v, e, z) && !Races(v, e) && !SkipsFlush(v, e)
    ensures Reaches(v, Next(v, e), z)
  {
    var v' := Next(v, e);
    assert [e][1..] == [];
    assert Leads(v', [], v', z);
    assert Leads(v, [e], v', z);
  }

  lemma ReachesStep(w: World, v: World, e: Event, z: Setup)
    requires Reaches(w, v, z) && V.InRange(v.s) && Allowed(v, e, z) && !Races(v, e) && !SkipsFlush(v, e)
    ensures Reaches(w, Next(v, e), z)
  {
    OneStep(v, e, z);
    ReachesTrans(w, v, Next(v, e), z);
  }

  /** Ring r executes its first n commands while everything else stands still. */
  function Drained(w: World, r: nat, n: nat): (v: World)
    requires V.InRange(w.s) && r < |w.rings| && n <= |w.rings[r]|
    ensures v.s == w.s && v.pending == w.pending && |v.tlb| == |w.tlb| && |v.rings| == |w.rings|
    decreases n
  {
    if n == 0 then w else Drained(Next(w, Execute(r)), r, n - 1)
  }

  lemma {:induction false} DrainedRings(w: World, r: nat, n: nat, z: Setup)
    requires V.InRange(w.s) && r < |w.rings| && n <= |w.rings[r]|
    ensures var v := Drained(w, r, n); Reaches(w, v, z) && v.rings == w.rings[r := w.rings[r][n..]]
    decreases n
  {
    if n == 0 {
      assert Leads(w, [], w, z);
    } else {
      var u := Next(w, Execute(r));
      OneStep(w, Execute(r), z);
      DrainedRings(u, r, n - 1, z);
      ReachesTrans(w, u, Drained(u, r, n - 1), z);
      assert w.rings[r][1..][n - 1..] == w.rings[r][n..];
    }
  }

  /** What job j then finds is what those commands leave. */
  lemma {:induction false} DrainedGood(w: World, r: nat, n: nat, j: Job)
    requires V.InRange(w.s) && r < |w.rings| && n <= |w.rings[r]| && j.use.id < |w.tlb|
    ensures Good(Drained(w, r, n).tlb[j.use.id], j) <==> Cover(w.tlb[j.use.id], w.rings[r][..n], j, w.complete)
    decreases n
  {
    if n > 0 {
      var xs := w.rings[r];
      DrainedGood(Next(w, Execute(r)), r, n - 1, j);
      assert xs[..n][1..] == xs[1..][..n - 1];
    }
  }

  /** An update that is not among the commands is not complete afterwards. */
  lemma {:induction false} DrainedComplete(w: World, r: nat, n: nat, u: V.Fence)
    requires V.InRange(w.s) && r < |w.rings| && n <= |w.rings[r]|
    ensures u in Drained(w, r, n).complete <==> u in w.complete || Update(u) in w.rings[r][..n]
    decreases n
  {
    if n > 0 {
      var xs := w.rings[r];
      DrainedComplete(Next(w, Execute(r)), r, n - 1, u);
      assert xs[..n] == [xs[0]] + xs[1..][..n - 1];
    }
  }

  /** Two rings at jobs of different users on one id: the id cannot serve both. */
  lemma TwoHeads(w: World, r: nat, r': nat)
    requires r < |w.rings| && r' < |w.rings| && w.rings[r] != [] && w.rings[r'] != []
    requires w.rings[r'][0].Exec? && Clashes(w.rings[r][0], w.rings[r'][0].job)
    ensures Stale(w)
  {
    var x, y := w.rings[r][0], w.rings[r'][0];
    assert StaleHead(w.tlb, x) || StaleHead(w.tlb, y);
  }

  /** A sequence number that no flush on the ring has. */
  function NewSeqno(xs: seq<Item>): (n: int)
    ensures forall p :: 0 <= p < |xs| && xs[p].Flush? ==> xs[p].fence.seqno < n
  {
    if xs == [] then 0
    else
      var n := NewSeqno(xs[1..]);
      assert forall p :: 1 <= p < |xs| ==> xs[p] == xs[1..][p - 1];
      if xs[0].Flush? && xs[0].fence.seqno >= n then xs[0].fence.seqno + 1 else n
  }

  /** Any pending job can go on its ring. */
  lemma CanRun(w: World, k: nat, z: Setup) returns (u: World, f: V.Fence)
    requires V.Placed(w.s) && k < |w.pending| && w.pending[k].ring < |w.rings|
    ensures u == Next(w, RunJob(k, f)) && Reaches(w, u, z) && V.Placed(u.s)
  {
    var j := w.pending[k];
    f := V.Fence(j.ring, NewSeqno(w.rings[j.ring]));
    u := Next(w, RunJob(k, f));
    OneStep(w, RunJob(k, f), z);
    V.StepKeepsPlaces(w.s, V.DoFlush(j.use.id, f));
  }

  /** Two rings may execute as far as one likes. */
  lemma DrainTwo(w: World, r: nat, n: nat, o: nat, p: nat, z: Setup) returns (v: World)
    requires V.InRange(w.s) && r < |w.rings| && n < |w.rings[r]| && o < |w.rings| && p < |w.rings[o]| && r != o
    ensures Reaches(w, v, z) && |v.rings| == |w.rings| && v.rings[r] != [] && v.rings[o] != []
    ensures v.rings[r][0] == w.rings[r][n] && v.rings[o][0] == w.rings[o][p]
  {
    var u := Drained(w, r, n);
    DrainedRings(w, r, n, z);
    v := Drained(u, o, p);
    DrainedRings(u, o, p, z);
    ReachesTrans(w, u, v, z);
  }

  /** From a job with a flush that is not on its ring yet, and a job of another user
      on the same id on another ring, the rings can get to both. */
  lemma MeetsHead(w: World, k: nat, o: nat, p: nat, z: Setup)
    requires V.Placed(w.s) && k < |w.pending| && o < |w.rings| && p < |w.rings[o]|
    requires var j := w.pending[k]; j.flush && j.ring < |w.rings| && o != j.ring && Clashes(w.rings[o][p], j)
    ensures CanGoStale(w, z)
  {
    var j := w.pending[k];
    var u, f := CanRun(w, k, z);
    var v := DrainTwo(u, j.ring, |w.rings[j.ring]| + 1, o, p, z);
    ReachesTrans(w, u, v, z);
    TwoHeads(v, o, j.ring);
  }

  /** A job without a flush that its ring does not cover comes to its id too late. */
  lemma UncoveredHead(w: World, k: nat, z: Setup)
    requires V.Placed(w.s) && k < |w.pending|
    requires var j := w.pending[k];
             && !j.flush && j.ring < |w.rings| && j.use.id < |w.tlb|
             && !Cover(w.tlb[j.use.id], w.rings[j.ring], j, w.complete)
    ensures CanGoStale(w, z)
  {
    var j := w.pending[k];
    var xs := w.rings[j.ring];
    var u, f := CanRun(w, k, z);
    assert u.rings[j.ring][..|xs|] == xs && u.rings[j.ring][|xs|..] == [Exec(j)];
    var v := Drained(u, j.ring, |xs|);
    DrainedRings(u, j.ring, |xs|, z);
    DrainedGood(u, j.ring, |xs|, j);
    ReachesTrans(w, u, v, z);
    assert v.rings[j.ring] == [Exec(j)] && StaleHead(v.tlb, v.rings[j.ring][0]);
  }

  /** A grab can be followed by sound steps to a stale translation if and only if it races or
      skips a flush it needs. */
  lemma GrabStaleIff(w: World, q: V.Request, z: Setup)
    requires Inv(w) && AllowedGrant(w, q, z)
    ensures CanGoStale(Next(w, Grant(q)), z) <==> Race(w, q) || Skips(w, q)
  {
    var v := Next(w, Grant(q));
    V.StepKeepsPlaces(w.s, V.DoGrab(q));
    if Race(w, q) {
      var j := GrantedJob(q, V.Grab(w.s, q).1);
      var o, p :| 0 <= o < |w.rings| && o != q.ring && 0 <= p < |w.rings[o]| && Clashes(w.rings[o][p], j);
      MeetsHead(v, |w.pending|, o, p, z);
    } else if Skips(w, q) {
      GrantedGoodIff(w, q, z);
      UncoveredHead(v, |w.pending|, z);
    } else if CanGoStale(v, z) {
      GrantKeeps(w, q, z);
      var u :| Reaches(v, u, z) && Stale(u);
      var es :| Leads(v, es, u, z);
      SoundKeeps(v, es, z);
      InvNotStale(u);
    }
  }

  /** Over whole runs, with hasty flushes and foreign takes or without: the first grab that races or skips
      a flush it needs, and only such a grab, opens the way to a stale translation. */
  lemma StaleIff(w: World, es: seq<Event>, q: V.Request, z: Setup)
    requires Start(w) && AllowedRun(w, es, z) && SoundRun(w, es)
    requires Run(w, es).Some? && AllowedGrant(Run(w, es).value, q, z)
    ensures V.InRange(Run(w, es).value.s)
    ensures CanGoStale(Next(Run(w, es).value, Grant(q)), z) <==> Race(Run(w, es).value, q) || Skips(Run(w, es).value, q)
  {
    StartStrong(w, z);
    SoundKeeps(w, es, z);
    GrabStaleIff(Run(w, es).value, q, z);
  }

  // ---- What a hasty flush opens ----

  lemma {:induction false} FirstPlace(xs: seq<Item>, x: Item) returns (p: nat)
    requires x in xs
    ensures p < |xs| && xs[p] == x && x !in xs[..p]
    decreases |xs|
  {
    if xs[0] == x {
      p := 0;
    } else {
      assert xs == [xs[0]] + xs[1..];
      var k := FirstPlace(xs[1..], x);
      p := k + 1;
      assert xs[..p] == [xs[0]] + xs[1..][..k];
    }
  }

  /** No command before the update can leave it covered. */
  lemma {:induction false} NotCoveredYet(t: Tlb, xs: seq<Item>, v: Job, u: V.Fence, c: set<V.Fence>)
    requires v.updates == Some(u) && u !in t.covered && u !in c && Update(u) !in xs
    ensures !Cover(t, xs + [Update(u)], v, c)
    decreases |xs|
  {
    if xs == [] {
      assert (xs + [Update(u)])[1..] == [];
    } else {
      assert (xs + [Update(u)])[1..] == xs[1..] + [Update(u)];
      NotCoveredYet(After(t, v.use.id, xs[0], c), xs[1..], v, u, Completed(c, xs[0]));
    }
  }

  /** Ring r is at job j, which its flush has just come before, and the update that was not
      ahead of the flush has executed on another ring since. */
  ghost predicate JustMissed(v: World, j: Job, u: V.Fence) {
    && j.ring < |v.rings| && v.rings[j.ring] == [Exec(j)] && j.use.id < |v.tlb|
    && u in v.complete && u !in v.tlb[j.use.id].covered
  }

  /** The flush executes before the update. */
  lemma FlushFirst(w: World, j: Job, f: V.Fence, u: V.Fence, z: Setup) returns (v: World)
    requires Inv(w) && j.ring < |w.rings| && j.use.id < |w.tlb| && j.flush
    requires exists xs :: w.rings[j.ring] == xs + Commands(j, f) && Update(u) !in xs
    requires u !in w.complete
    ensures Reaches(w, v, z) && v.s == w.s && v.rings == w.rings[j.ring := [Exec(j)]] && |v.tlb| == |w.tlb|
    ensures u !in v.complete
    ensures var t := v.tlb[j.use.id]; t.vm == j.use.vm && t.pd == j.use.pd
  {
    var xs :| w.rings[j.ring] == xs + Commands(j, f) && Update(u) !in xs;
    var n := |xs| + 1;
    var ys := w.rings[j.ring];
    assert ys[..n] == xs + [Flush(j, f)] && ys[n..] == [Exec(j)];
    v := Drained(w, j.ring, n);
    DrainedRings(w, j.ring, n, z);
    DrainedComplete(w, j.ring, n, u);
    var v0 := j.(updates := None);
    CoverFlush(w.tlb[j.use.id], xs, j, f, v0, w.complete);
    DrainedGood(w, j.ring, n, v0);
  }

  lemma {:induction false} CoverFlush(t: Tlb, xs: seq<Item>, j: Job, f: V.Fence, v: Job, c: set<V.Fence>)
    requires v.use == j.use && v.updates.None?
    ensures Cover(t, xs + [Flush(j, f)], v, c)
    decreases |xs|
  {
    if xs == [] {
      assert (xs + [Flush(j, f)])[1..] == [];
    } else {
      assert (xs + [Flush(j, f)])[1..] == xs[1..] + [Flush(j, f)];
      CoverFlush(After(t, v.use.id, xs[0], c), xs[1..], j, f, v, Completed(c, xs[0]));
    }
  }

  /** Then the update executes, before any flush behind it. */
  lemma UpdateNext(w: World, j: Job, u: V.Fence, o: nat, z: Setup) returns (v: World)
    requires Inv(w) && j.ring < |w.rings| && o < |w.rings| && o != j.ring && j.use.id < |w.tlb|
    requires w.rings[j.ring] == [Exec(j)] && u !in w.complete && Update(u) in w.rings[o] && Only(w.rings[o], j.use)
    requires var t := w.tlb[j.use.id]; t.vm == j.use.vm && t.pd == j.use.pd
    ensures Reaches(w, v, z) && v.s == w.s && JustMissed(v, j, u)
  {
    var xs, i := w.rings[o], j.use.id;
    var p := FirstPlace(xs, Update(u));
    v := Drained(w, o, p + 1);
    DrainedRings(w, o, p + 1, z);
    DrainedComplete(w, o, p + 1, u);
    assert xs[..p + 1] == xs[..p] + [Update(u)];
    var v0, v1 := j.(updates := None), j.(updates := Some(u));
    OnlyCover(w.tlb[i], xs[..p + 1], v0, w.complete);
    DrainedGood(w, o, p + 1, v0);
    NotCoveredYet(w.tlb[i], xs[..p], v1, u, w.complete);
    DrainedGood(w, o, p + 1, v1);
  }

  /** A grab that relies on that flush for the update skips a flush it needs. */
  lemma MissedSkip(v: World, j: Job, u: V.Fence, q: V.Request)
    requires JustMissed(v, j, u) && V.InRange(v.s) && q.ring == j.ring && q.updates == Some(u)
    requires V.Grab(v.s, q).1 == V.Granted(j.use.id, false)
    ensures Skips(v, q)
  {
    assert v.rings[j.ring][1..] == [];
  }

  /** A grab from j's ring for the same id, with update u, that asks for no flush. */
  ghost predicate Relies(v: World, q: V.Request, z: Setup, j: Job, u: Option<V.Fence>)
    requires V.InRange(v.s)
  {
    AllowedGrant(v, q, z) && q.ring == j.ring && q.updates == u && V.Grab(v.s, q).1 == V.Granted(j.use.id, false)
  }

  /** After a hasty flush the rings can come to a point where every grab that asks for the recorded
      update from the same ring, and is granted the id without a flush, goes stale. */
  lemma HastyOpens(w: World, k: nat, f: V.Fence, z: Setup) returns (v: World)
    requires Strong(w, z) && Allowed(w, RunJob(k, f), z) && Hasty(w, k)
    ensures var j := w.pending[k]; var u := w.s.ids[j.use.id].flushed;
            && Reaches(Next(w, RunJob(k, f)), v, z) && v.s == Next(w, RunJob(k, f)).s && V.InRange(v.s)
            && u.Some? && u.value in v.complete
            && forall q: V.Request :: Relies(v, q, z, j, u) ==> CanGoStale(Next(v, Grant(q)), z)
  {
    var j := w.pending[k];
    var w1 := Next(w, RunJob(k, f));
    assert PendingOk(w, j);
    RunJobKeeps(w, k, f, z);
    var u := w.s.ids[j.use.id].flushed.value;
    assert OnSomeRing(w.rings, w.complete, Some(u));
    var o :| 0 <= o < |w.rings| && Update(u) in w.rings[o];
    assert w1.rings[j.ring] == w.rings[j.ring] + Commands(j, f);
    var w2 := FlushFirst(w1, j, f, u, z);
    ReachedInv(w1, w2, z);
    v := UpdateNext(w2, j, u, o, z);
    ReachedInv(w2, v, z);
    ReachesTrans(w1, w2, v, z);
    forall q: V.Request | Relies(v, q, z, j, Some(u))
      ensures CanGoStale(Next(v, Grant(q)), z)
    {
      MissedSkip(v, j, u, q);
      GrabStaleIff(v, q, z);
    }
  }

  lemma ReachedInv(w: World, v: World, z: Setup)
    requires Inv(w) && Reaches(w, v, z)
    ensures Inv(v)
  {
    var es :| Leads(w, es, v, z);
    SoundKeeps(w, es, z);
  }

  // ---- Runs into trouble ----

  function Asks(vm: nat, pd: nat, updates: Option<V.Fence>, ring: nat, idle: set<nat>): V.Request {
    V.Request(vm, pd, false, updates, ring, {}, idle, false, true, true)
  }

  const Nobody := V.Id(0, 0, None, None)

  /** The driver's three ids besides 0, nobody reserving. */
  function Scene(w: World, ids: seq<V.Id>, lru: seq<nat>, pending: seq<Job>, rings: seq<seq<Item>>): World {
    w.(s := V.State([Nobody] + ids, lru, map[], 0), pending := pending, rings := rings)
  }

  /** The first idle id of the list goes to a user none is assigned to. */
  lemma TakenFresh(s: V.State, q: V.Request, k: nat)
    requires V.InRange(s) && s.reserved == map[] && !q.waiting && q.room && q.syncRoom
    requires forall n :: 0 <= n < |s.lru| ==> !V.Matches(s.ids[s.lru[n]], q)
    requires k < |s.lru| && s.lru[k] in q.idle && forall n :: 0 <= n < k ==> s.lru[n] !in q.idle
    ensures var i := s.lru[k];
            V.Grab(s, q) == (s.(ids := s.ids[i := V.Id(q.vm, q.pd, None, q.updates)], lru := V.ToTail(s.lru, k)),
                             V.Granted(i, true))
  {
    assert V.LastMatch(s, q, |s.lru|) == None;
    assert V.FirstIdle(s.lru, q.idle, 0) == k;
  }

  /** A fresh take while no other ring has a job to do is no race. */
  lemma ReachesFresh(w0: World, w: World, q: V.Request, k: nat, u: World, z: Setup)
    requires Reaches(w0, w, z) && V.InRange(w.s) && AllowedGrant(w, q, z)
    requires w.s.reserved == map[] && !q.waiting && q.room && q.syncRoom
    requires forall n :: 0 <= n < |w.s.lru| ==> !V.Matches(w.s.ids[w.s.lru[n]], q)
    requires k < |w.s.lru| && w.s.lru[k] in q.idle && forall n :: 0 <= n < k ==> w.s.lru[n] !in q.idle
    requires forall r :: 0 <= r < |w.rings| && r != q.ring ==> w.rings[r] == []
    requires var i := w.s.lru[k];
             u == w.(s := w.s.(ids := w.s.ids[i := V.Id(q.vm, q.pd, None, q.updates)], lru := V.ToTail(w.s.lru, k)),
                     pending := w.pending + [Job(Use(i, q.vm, q.pd), q.updates, true, q.ring)])
    ensures Reaches(w0, u, z)
  {
    TakenFresh(w.s, q, k);
    ReachesStep(w0, w, Grant(q), z);
  }

  lemma Emitted(w: World, k: nat, f: V.Fence, v: World)
    requires V.InRange(w.s) && k < |w.pending| && w.pending[k].ring < |w.rings|
    requires var j := w.pending[k];
             && v == w.(s := v.s, pending := v.pending, rings := v.rings)
             && j.flush && v.s == V.Flushed(w.s, j.use.id, f)
             && |v.pending| + 1 == |w.pending| && v.pending[..k] == w.pending[..k] && v.pending[k..] == w.pending[k + 1..]
             && |v.rings| == |w.rings| && v.rings[j.ring] == w.rings[j.ring] + Commands(j, f)
             && forall r :: 0 <= r < |w.rings| && r != j.ring ==> v.rings[r] == w.rings[r]
    ensures Next(w, RunJob(k, f)) == v
  {
    var u := Next(w, RunJob(k, f));
    assert v.pending == v.pending[..k] + v.pending[k..] == u.pending;
    assert u.rings == v.rings;
  }

  lemma Issued(w: World, u: V.Fence, r: nat, v: World)
    requires V.InRange(w.s) && r < |w.rings| && v == w.(rings := v.rings)
    requires |v.rings| == |w.rings| && v.rings[r] == w.rings[r] + [Update(u)]
    requires forall o :: 0 <= o < |w.rings| && o != r ==> v.rings[o] == w.rings[o]
    ensures Next(w, Issue(u, r)) == v
  {
    assert Next(w, Issue(u, r)).rings == v.rings;
  }

  /** The id assigned to the user is granted again. */
  lemma TakenAgain(s: V.State, q: V.Request, k: nat)
    requires V.InRange(s) && q.vm !in s.reserved && !q.waiting && q.room && q.syncRoom
    requires k < |s.lru| && V.Matches(s.ids[s.lru[k]], q)
    requires forall n :: k < n < |s.lru| ==> !V.Matches(s.ids[s.lru[n]], q)
    requires exists n :: 0 <= n < |s.lru| && s.lru[n] in q.idle
    ensures V.Grab(s, q) == V.GrabUsed(s, q, k)
  {
    assert V.LastMatch(s, q, |s.lru|) == Some(k);
  }

  /** No job on id m is pending or on a ring other than r. */
  ghost predicate IdleFor(v: World, m: nat, r: nat) {
    && (forall k :: 0 <= k < |v.pending| ==> v.pending[k].use.id != m)
    && forall o :: 0 <= o < |v.rings| && o != r ==> Avoids(v.rings[o], {m})
  }

  /** A grab that relies on the last flush of j's id for the recorded update is possible whenever some listed id is
      idle for j's ring, its VM has no reserved id, and the reuse search ends at j's id, at place k. */
  lemma ReliesIfIdle(v: World, z: Setup, j: Job, u: V.Fence, f: V.Fence, k: nat, m: nat)
    requires V.InRange(v.s) && j.ring < |v.rings| && j.use.vm != 0 && j.use.pd != 0 && j.use.id < |v.s.ids|
    requires v.s.ids[j.use.id] == V.Id(j.use.vm, j.use.pd, Some(f), Some(u)) && f.context == j.ring
    requires u in v.complete && u.context == z.timeline(j.use.vm) && j.use.vm !in v.s.reserved
    requires k < |v.s.lru| && v.s.lru[k] == j.use.id
    requires forall n :: k < n < |v.s.lru| ==> v.s.ids[v.s.lru[n]].owner != j.use.vm || v.s.ids[v.s.lru[n]].pd != j.use.pd
    requires m in v.s.lru && IdleFor(v, m, j.ring)
    ensures exists q: V.Request :: Relies(v, q, z, j, Some(u))
  {
    var q := Asks(j.use.vm, j.use.pd, Some(u), j.ring, {m});
    TakenAgain(v.s, q, k);
    assert Relies(v, q, z, j, Some(u));
  }

  // ---- A race ----

  const Id3 := V.Id(3, 30, None, None)
  const Id4 := V.Id(4, 40, None, None)
  const Job1 := Job(Use(2, 1, 10), None, true, 0)
  const Job2 := Job(Use(2, 2, 20), None, true, 0)
  const Job3 := Job(Use(1, 3, 30), None, true, 1)
  const Job4 := Job(Use(3, 4, 40), None, true, 1)

  /** VM 3 is granted id 1 for ring 1. */
  lemma OneGranted(w: World, z: Setup)
    requires Start(w) && |w.s.ids| == 4 && |w.rings| == 2
    ensures Reaches(w, Scene(w, [Id3, Nobody, Nobody], [2, 3, 1], [Job3], [[], []]), z)
  {
    assert w.s == V.State([Nobody] + [Nobody, Nobody, Nobody], [1, 2, 3], map[], 0) && w.rings == [[], []];
    assert Leads(w, [], w, z);
    ReachesFresh(w, w, Asks(3, 30, None, 1, {1, 2, 3}), 0, Scene(w, [Id3, Nobody, Nobody], [2, 3, 1], [Job3], [[], []]), z);
  }

  /** VM 1 gets id 2 for ring 0. */
  lemma TwoGranted(w: World, z: Setup)
    requires Start(w) && |w.s.ids| == 4 && |w.rings| == 2
    ensures Reaches(w, Scene(w, [Id3, V.Id(1, 10, None, None), Nobody], [3, 1, 2], [Job3, Job1], [[], []]), z)
  {
    OneGranted(w, z);
    ReachesFresh(w, Scene(w, [Id3, Nobody, Nobody], [2, 3, 1], [Job3], [[], []]), Asks(1, 10, None, 0, {2, 3}), 0,
                 Scene(w, [Id3, V.Id(1, 10, None, None), Nobody], [3, 1, 2], [Job3, Job1], [[], []]), z);
  }

  /** VM 4 gets id 3 for ring 1. */
  lemma AllGranted(w: World, z: Setup)
    requires Start(w) && |w.s.ids| == 4 && |w.rings| == 2
    ensures Reaches(w, Scene(w, [Id3, V.Id(1, 10, None, None), Id4], [1, 2, 3], [Job3, Job1, Job4], [[], []]), z)
  {
    TwoGranted(w, z);
    ReachesFresh(w, Scene(w, [Id3, V.Id(1, 10, None, None), Nobody], [3, 1, 2], [Job3, Job1], [[], []]),
                 Asks(4, 40, None, 1, {3}), 0,
                 Scene(w, [Id3, V.Id(1, 10, None, None), Id4], [1, 2, 3], [Job3, Job1, Job4], [[], []]), z);
  }

  /** VM 1's job goes on ring 0. */
  lemma FirstEmitted(w: World, f: V.Fence, z: Setup)
    requires Start(w) && |w.s.ids| == 4 && |w.rings| == 2 && f.context == 0
    ensures Reaches(w, Scene(w, [Id3, V.Id(1, 10, Some(f), None), Id4], [1, 2, 3], [Job3, Job4], [Commands(Job1, f), []]), z)
  {
    AllGranted(w, z);
    var v := Scene(w, [Id3, V.Id(1, 10, None, None), Id4], [1, 2, 3], [Job3, Job1, Job4], [[], []]);
    ReachesStep(w, v, RunJob(1, f), z);
    Emitted(v, 1, f, Scene(w, [Id3, V.Id(1, 10, Some(f), None), Id4], [1, 2, 3], [Job3, Job4], [Commands(Job1, f), []]));
  }

  /** VM 2 takes its id there. */
  lemma TakenOver(w: World, f: V.Fence, z: Setup)
    requires Start(w) && |w.s.ids| == 4 && |w.rings| == 2 && f.context == 0
    ensures var v := Scene(w, [Id3, V.Id(2, 20, None, None), Id4], [1, 3, 2], [Job3, Job4, Job2], [Commands(Job1, f), []]);
            Reaches(w, v, z)
  {
    FirstEmitted(w, f, z);
    ReachesFresh(w, Scene(w, [Id3, V.Id(1, 10, Some(f), None), Id4], [1, 2, 3], [Job3, Job4], [Commands(Job1, f), []]),
                 Asks(2, 20, None, 0, {2}), 1,
                 Scene(w, [Id3, V.Id(2, 20, None, None), Id4], [1, 3, 2], [Job3, Job4, Job2], [Commands(Job1, f), []]), z);
  }

  function Poised(w: World, f: V.Fence, g: V.Fence): World {
    Scene(w, [Id3.(lastFlush := Some(g)), V.Id(2, 20, None, None), Id4], [1, 3, 2], [Job4, Job2],
          [Commands(Job1, f), Commands(Job3, g)])
  }

  lemma ReachesPoised(w: World, f: V.Fence, g: V.Fence, z: Setup)
    requires Start(w) && |w.s.ids| == 4 && |w.rings| == 2 && f.context == 0 && g.context == 1
    ensures Reaches(w, Poised(w, f, g), z)
  {
    TakenOver(w, f, z);
    var v := Scene(w, [Id3, V.Id(2, 20, None, None), Id4], [1, 3, 2], [Job3, Job4, Job2], [Commands(Job1, f), []]);
    ReachesStep(w, v, RunJob(0, g), z);
    Emitted(v, 0, g, Poised(w, f, g));
  }

  lemma PoisedRaces(w: World, f: V.Fence, g: V.Fence, z: Setup)
    ensures AllowedGrant(Poised(w, f, g), Asks(2, 20, None, 1, {1}), z) && Race(Poised(w, f, g), Asks(2, 20, None, 1, {1}))
  {
    var v, q := Poised(w, f, g), Asks(2, 20, None, 1, {1});
    assert v.s.lru[0] in q.idle;
    TakenAgain(v.s, q, 2);
    assert Clashes(v.rings[0][1], GrantedJob(q, V.Granted(2, true)));
  }

  /** The race is within reach: VM 1's job is on ring 0 when VM 2 takes over its id there, being
      next in line; VM 2's second job finds that id for ring 1 before either has executed. */
  lemma RaceHappens(w: World, z: Setup)
    requires Start(w) && |w.s.ids| == 4 && |w.rings| == 2
    ensures exists v: World, q: V.Request ::
              Reaches(w, v, z) && AllowedGrant(v, q, z) && V.InRange(v.s) && Race(v, q) && CanGoStale(Next(v, Grant(q)), z)
  {
    var f, g, q := V.Fence(0, 1), V.Fence(1, 1), Asks(2, 20, None, 1, {1});
    var v := Poised(w, f, g);
    ReachesPoised(w, f, g, z);
    PoisedRaces(w, f, g, z);
    var es :| Leads(w, es, v, z);
    StaleIff(w, es, q, z);
  }

  // ---- A skipped flush ----

  /** A job behind its update on ring 1, and one without updates on ring 0, of one VM. */
  function JobX(u: V.Fence): Job {
    Job(Use(1, 1, 10), Some(u), true, 1)
  }

  const JobY := Job(Use(1, 1, 10), None, true, 0)

  /** The update goes on ring 1. */
  lemma FirstIssued(w: World, u: V.Fence, z: Setup)
    requires Start(w) && |w.s.ids| == 4 && |w.rings| == 2 && z.home(u.context) == 1
    ensures Reaches(w, Scene(w, [Nobody, Nobody, Nobody], [1, 2, 3], [], [[], [Update(u)]]), z)
  {
    assert w.s == V.State([Nobody] + [Nobody, Nobody, Nobody], [1, 2, 3], map[], 0) && w.rings == [[], []];
    assert Leads(w, [], w, z);
    ReachesStep(w, w, Issue(u, 1), z);
    Issued(w, u, 1, Scene(w, [Nobody, Nobody, Nobody], [1, 2, 3], [], [[], [Update(u)]]));
  }

  /** Both jobs are granted id 1. */
  lemma BothGranted(w: World, u: V.Fence, z: Setup)
    requires Start(w) && |w.s.ids| == 4 && |w.rings| == 2 && u.context == z.timeline(1) && z.home(u.context) == 1
    ensures Reaches(w, Scene(w, [V.Id(1, 10, None, Some(u)), Nobody, Nobody], [2, 3, 1], [JobX(u), JobY], [[], [Update(u)]]), z)
  {
    FirstIssued(w, u, z);
    var v := Scene(w, [V.Id(1, 10, None, Some(u)), Nobody, Nobody], [2, 3, 1], [JobX(u)], [[], [Update(u)]]);
    ReachesFresh(w, Scene(w, [Nobody, Nobody, Nobody], [1, 2, 3], [], [[], [Update(u)]]),
                 Asks(1, 10, Some(u), 1, {1, 2, 3}), 0, v, z);
    GrantsY(w, v, u, z);
  }

  lemma GrantsY(w: World, w2: World, u: V.Fence, z: Setup)
    requires Reaches(w, w2, z)
    requires w2 == Scene(w, [V.Id(1, 10, None, Some(u)), Nobody, Nobody], [2, 3, 1], [JobX(u)], [[], [Update(u)]])
    ensures Reaches(w, w2.(pending := [JobX(u), JobY]), z)
  {
    var q := Asks(1, 10, None, 0, {2, 3});
    assert w2.s.lru[0] in q.idle;
    TakenAgain(w2.s, q, 2);
    assert V.ToTail(w2.s.lru, 2) == w2.s.lru && w2.s.ids[1 := w2.s.ids[1]] == w2.s.ids;
    ReachesStep(w, w2, Grant(q), z);
    assert Next(w2, Grant(q)) == w2.(pending := [JobX(u), JobY]);
  }

  /** The flush without the update is put on ring 0, hastily, and executes; then the update does. */
  function Missed(w: World, u: V.Fence, f: V.Fence): World {
    Scene(w, [V.Id(1, 10, Some(f), Some(u)), Nobody, Nobody], [2, 3, 1], [JobX(u)], [[Exec(JobY)], []])
    .(complete := {u}, tlb := [Tlb(0, 0, {}), Tlb(1, 10, {}), Tlb(0, 0, {}), Tlb(0, 0, {})])
  }

  lemma ReachesHasty(w: World, u: V.Fence, f: V.Fence, z: Setup)
    requires Start(w) && |w.s.ids| == 4 && |w.rings| == 2
    requires u.context == z.timeline(1) && z.home(u.context) == 1 && f.context == 0
    ensures Reaches(w, Scene(w, [V.Id(1, 10, Some(f), Some(u)), Nobody, Nobody], [2, 3, 1], [JobX(u)],
                             [Commands(JobY, f), [Update(u)]]), z)
  {
    BothGranted(w, u, z);
    var w3 := Scene(w, [V.Id(1, 10, None, Some(u)), Nobody, Nobody], [2, 3, 1], [JobX(u), JobY], [[], [Update(u)]]);
    ReachesStep(w, w3, RunJob(1, f), z);
    Emitted(w3, 1, f, Scene(w, [V.Id(1, 10, Some(f), Some(u)), Nobody, Nobody], [2, 3, 1], [JobX(u)],
                            [Commands(JobY, f), [Update(u)]]));
  }

  lemma ReachesMissed(w: World, u: V.Fence, f: V.Fence, z: Setup)
    requires Start(w) && |w.s.ids| == 4 && |w.rings| == 2
    requires u.context == z.timeline(1) && z.home(u.context) == 1 && f.context == 0
    ensures Reaches(w, Missed(w, u, f), z)
  {
    ReachesHasty(w, u, f, z);
    var w4 := Scene(w, [V.Id(1, 10, Some(f), Some(u)), Nobody, Nobody], [2, 3, 1], [JobX(u)], [Commands(JobY, f), [Update(u)]]);
    ReachesStep(w, w4, Execute(0), z);
    var w5 := w4.(tlb := [Tlb(0, 0, {}), Tlb(1, 10, {}), Tlb(0, 0, {}), Tlb(0, 0, {})], rings := [[Exec(JobY)], [Update(u)]]);
    assert Commands(JobY, f)[1..] == [Exec(JobY)];
    assert Next(w4, Execute(0)) == w5;
    ReachesStep(w, w5, Execute(1), z);
    assert [Update(u)][1..] == [];
    assert Next(w5, Execute(1)) == Missed(w, u, f);
  }

  lemma MissedSkips(w: World, u: V.Fence, f: V.Fence, z: Setup)
    requires u.context == z.timeline(1) && f.context == 0
    ensures var v, q := Missed(w, u, f), Asks(1, 10, Some(u), 0, {2, 3}); AllowedGrant(v, q, z) && Skips(v, q)
  {
    var v, q := Missed(w, u, f), Asks(1, 10, Some(u), 0, {2, 3});
    assert v.s.lru[0] in q.idle;
    TakenAgain(v.s, q, 2);
    assert !FlushBehind([Exec(JobY)][1..], 1, u, {u});
  }

  /** A hasty flush does go stale, with one VM, nothing reserved and no race: a job is granted an id behind
      its update on ring 1; another, without updates, puts its flush on ring 0, which executes before
      the update; a third, for ring 0 and with the update, relies on that flush. */
  lemma HastyGoesStale(w: World, z: Setup)
    requires Start(w) && |w.s.ids| == 4 && |w.rings| == 2 && z.home(z.timeline(1)) == 1
    ensures exists v: World, q: V.Request ::
              && Reaches(w, v, z) && AllowedGrant(v, q, z) && v.s.reserved == map[] && V.InRange(v.s)
              && Skips(v, q) && CanGoStale(Next(v, Grant(q)), z)
  {
    var u, f := V.Fence(z.timeline(1), 1), V.Fence(0, 1);
    var v, q := Missed(w, u, f), Asks(1, 10, Some(u), 0, {2, 3});
    ReachesMissed(w, u, f, z);
    MissedSkips(w, u, f, z);
    var es :| Leads(w, es, v, z);
    StaleIff(w, es, q, z);
  }
}
