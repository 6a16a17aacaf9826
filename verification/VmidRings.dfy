/** VMIDs, the TLB behind them and the rings that use them. Page-table updates are commands
    on a ring. A job is granted an id once its last update is complete or ahead on the
    job's own ring, and asks for a flush or not. When it is run, its flush and then the job
    itself go to the end of its ring; each ring executes its commands in order, at its own pace.
    A flush that executes makes everything complete by then visible to the id. */
module VmidRings {
  import opened Wrappers
  import opened Vmid

  /** Whose translations an id holds, or is wanted for. */
  datatype Use = Use(id: nat, vm: nat, pd: nat)

  /** A job that was granted an id. */
  datatype Job = Job(use: Use, updates: Option<Fence>, flush: bool, ring: nat)

  /** A command on a ring: a page-table update, the flush of a job, with its fence, or the job. */
  datatype Item = Update(update: Fence) | Flush(job: Job, fence: Fence) | Exec(job: Job)

  /** For whom the id was flushed last, and the updates complete at that time; vm 0 is nobody. */
  datatype Tlb = Tlb(vm: nat, pd: nat, covered: set<Fence>)

  /** pending are the jobs that were granted an id and not put on their ring yet. */
  datatype World = World(s: State, complete: set<Fence>, tlb: seq<Tlb>, pending: seq<Job>, rings: seq<seq<Item>>)

  datatype Event =
    | Issue(u: Fence, r: nat)         // a page-table update goes on ring r
    | Grant(q: Request)
    | RunJob(k: nat, f: Fence)        // pending job k goes on its ring, f the fence of its flush
    | Execute(r: nat)                 // ring r finishes its first command
    | Manage(a: Action)               // reserve, free or reset an id

  /** The fence context of a VM's page-table updates, and the ring that executes them. */
  datatype Setup = Setup(timeline: nat -> nat, home: nat -> nat)

  /** The update is complete or on the ring. */
  predicate Ready(xs: seq<Item>, complete: set<Fence>, u: Option<Fence>) {
    u.None? || u.value in complete || Update(u.value) in xs
  }

  /** The caller's part of a grab: the last update is on the VM's timeline, and complete or ahead on
      the job's ring, since a dependency on that ring counts as met once it is scheduled; the page
      directory is a real address; an id is idle only if all its jobs are through, or on the
      very ring that asks; a flush is done only if it has executed. */
  ghost predicate AllowedGrant(w: World, q: Request, z: Setup) {
    && Proper(DoGrab(q), z.timeline) && q.pd != 0 && q.ring < |w.rings|
    && Ready(w.rings[q.ring], w.complete, q.updates)
    && (forall k :: 0 <= k < |w.pending| ==> w.pending[k].use.id !in q.idle)
    && (forall r :: 0 <= r < |w.rings| && r != q.ring ==> Avoids(w.rings[r], q.idle))
    && (forall r :: 0 <= r < |w.rings| ==> NotDone(w.rings[r], q.done))
  }

  predicate Avoids(xs: seq<Item>, ids: set<nat>) {
    forall p :: 0 <= p < |xs| && !xs[p].Update? ==> xs[p].job.use.id !in ids
  }

  predicate NotDone(xs: seq<Item>, done: set<Fence>) {
    forall p :: 0 <= p < |xs| && xs[p].Flush? ==> xs[p].fence !in done
  }

  /** Later than every update of its context so far. */
  predicate Newest(xs: seq<Item>, complete: set<Fence>, u: Fence) {
    && (forall f :: f in complete && f.context == u.context ==> f.seqno < u.seqno)
    && (forall p :: 0 <= p < |xs| && xs[p].Update? && xs[p].update.context == u.context ==> xs[p].update.seqno < u.seqno)
  }

  predicate NewFence(xs: seq<Item>, f: Fence) {
    forall p :: 0 <= p < |xs| && xs[p].Flush? ==> xs[p].fence != f
  }

  /** The updates of a context go on one ring, in order; a flush gets a fence of its own. */
  ghost predicate Allowed(w: World, e: Event, z: Setup) {
    match e
    case Issue(u, r) => r < |w.rings| && r == z.home(u.context) && Newest(w.rings[r], w.complete, u)
    case Grant(q) => AllowedGrant(w, q, z)
    case RunJob(k, f) =>
      && k < |w.pending| && f.context == w.pending[k].ring < |w.rings|
      && NewFence(w.rings[w.pending[k].ring], f)
    case Execute(r) => r < |w.rings| && w.rings[r] != []
    case Manage(a) => a.DoAlloc? || a.DoFree? || a.DoReset?
  }

  /** What a job puts on its ring. */
  function Commands(j: Job, f: Fence): seq<Item> {
    if j.flush then [Flush(j, f), Exec(j)] else [Exec(j)]
  }

  /** The TLB of id i after a command. */
  function After(t: Tlb, i: nat, x: Item, complete: set<Fence>): Tlb {
    if x.Flush? && x.job.use.id == i then Tlb(x.job.use.vm, x.job.use.pd, complete) else t
  }

  function Completed(complete: set<Fence>, x: Item): set<Fence> {
    if x.Update? then complete + {x.update} else complete
  }

  function Next(w: World, e: Event): World
    requires InRange(w.s)
  {
    match e
    case Issue(u, r) => if r < |w.rings| then w.(rings := w.rings[r := w.rings[r] + [Update(u)]]) else w
    case Manage(a) => w.(s := Step(w.s, a))
    case Grant(q) =>
      var (t, r) := Grab(w.s, q);
      w.(s := t, pending := if r.Granted? then w.pending + [GrantedJob(q, r)] else w.pending)
    case RunJob(k, f) =>
      if k < |w.pending| && w.pending[k].ring < |w.rings| then
        var j := w.pending[k];
        w.(s := if j.flush then Flushed(w.s, j.use.id, f) else w.s,
           pending := w.pending[..k] + w.pending[k + 1..],
           rings := w.rings[j.ring := w.rings[j.ring] + Commands(j, f)])
      else w
    case Execute(r) =>
      if r < |w.rings| && w.rings[r] != [] then
        w.(complete := Completed(w.complete, w.rings[r][0]),
           tlb := seq(|w.tlb|, i requires 0 <= i < |w.tlb| => After(w.tlb[i], i, w.rings[r][0], w.complete)),
           rings := w.rings[r := w.rings[r][1..]])
      else w
  }

  function GrantedJob(q: Request, r: Result): Job
    requires r.Granted?
  {
    Job(Use(r.id, q.vm, q.pd), q.updates, r.flush, q.ring)
  }

  // ---- Who uses an id ----

  /** The TLB was flushed for the job's VM and page directory, after its last update was complete. */
  predicate Good(t: Tlb, j: Job) {
    t.vm == j.use.vm && t.pd == j.use.pd && (j.updates.Some? ==> j.updates.value in t.covered)
  }

  predicate Agree(u: Use, v: Use) {
    u.id == v.id ==> u == v
  }

  /** The commands on the id of u are all for u. */
  predicate Only(xs: seq<Item>, u: Use) {
    forall p :: 0 <= p < |xs| && !xs[p].Update? ==> Agree(u, xs[p].job.use)
  }

  /** Once the commands have executed, job j finds the TLB good. */
  predicate Cover(t: Tlb, xs: seq<Item>, j: Job, complete: set<Fence>)
    decreases |xs|
  {
    if xs == [] then Good(t, j)
    else Cover(After(t, j.use.id, xs[0], complete), xs[1..], j, Completed(complete, xs[0]))
  }

  /** The flush with fence f is among the commands, for the user of v and after v's updates, and
      whatever comes after it on its id is for the same user. */
  predicate Awaits(xs: seq<Item>, f: Fence, v: Job, complete: set<Fence>)
    decreases |xs|
  {
    && xs != []
    && ((xs[0].Flush? && xs[0].fence == f && xs[0].job.use == v.use && Only(xs, v.use)
         && (v.updates.Some? ==> v.updates.value in complete))
        || Awaits(xs[1..], f, v, Completed(complete, xs[0])))
  }

  // ---- The invariant ----

  predicate JobOk(j: Job, ids: nat) {
    j.use.id < ids && j.use.vm != 0 && j.use.pd != 0
  }

  /** A job not yet on its ring is for the id's owner and page directory, unless those were
      cleared; other rings work on its id only for the same user; a job with a flush has its updates
      ahead of it, and one without will find the TLB good. */
  ghost predicate PendingOk(w: World, j: Job) {
    && JobOk(j, |w.s.ids|) && j.use.id < |w.tlb| && j.ring < |w.rings|
    && (w.s.ids[j.use.id].owner == 0 || w.s.ids[j.use.id].owner == j.use.vm)
    && (w.s.ids[j.use.id].pd == 0 || w.s.ids[j.use.id].pd == j.use.pd)
    && (forall r :: 0 <= r < |w.rings| && r != j.ring ==> Only(w.rings[r], j.use))
    && (if j.flush then Ready(w.rings[j.ring], w.complete, j.updates)
        else Cover(w.tlb[j.use.id], w.rings[j.ring], j, w.complete))
  }

  /** Command p of a ring: a flush is followed by its job, and a job is covered by what is ahead of it. */
  predicate ItemOk(tlb: seq<Tlb>, complete: set<Fence>, xs: seq<Item>, p: nat)
    requires p < |xs|
  {
    && (!xs[p].Update? ==> JobOk(xs[p].job, |tlb|))
    && (xs[p].Flush? ==> p + 1 < |xs| && xs[p + 1] == Exec(xs[p].job))
    && (xs[p].Exec? ==> Cover(tlb[xs[p].job.use.id], xs[..p], xs[p].job, complete))
  }

  predicate RingOk(tlb: seq<Tlb>, complete: set<Fence>, xs: seq<Item>) {
    forall p :: 0 <= p < |xs| ==> ItemOk(tlb, complete, xs, p)
  }

  /** Two rings never work on one id for different users. */
  predicate Apart(xs: seq<Item>, ys: seq<Item>) {
    forall p :: 0 <= p < |xs| && !xs[p].Update? ==> Only(ys, xs[p].job.use)
  }

  /** The recorded last flush has executed, and left the TLB good for v; every command
      on the id is for the user of v. */
  predicate Settled(v: Job, t: Tlb, rings: seq<seq<Item>>) {
    Good(t, v) && forall r :: 0 <= r < |rings| ==> Only(rings[r], v.use)
  }

  /** The recorded last flush is still on its ring, where it will do for v; other rings work on the id
      for the user of v only. */
  predicate Underway(v: Job, f: Fence, rings: seq<seq<Item>>, complete: set<Fence>) {
    && f.context < |rings| && Awaits(rings[f.context], f, v, complete)
    && forall r :: 0 <= r < |rings| && r != f.context ==> Only(rings[r], v.use)
  }

  /** A stand-in for the owner's next job on the id, with last update u. */
  function OwnerJob(id: Id, i: nat, u: Option<Fence>): Job {
    Job(Use(i, id.owner, id.pd), u, false, 0)
  }

  /** The recorded last flush, if there is one, does for a job of the owner with last update u. */
  predicate IdOk(id: Id, i: nat, t: Tlb, complete: set<Fence>, rings: seq<seq<Item>>, u: Option<Fence>) {
    id.lastFlush.Some? && id.owner != 0 && id.pd != 0 ==>
      Settled(OwnerJob(id, i, u), t, rings) || Underway(OwnerJob(id, i, u), id.lastFlush.value, rings, complete)
  }

  ghost predicate Inv(w: World) {
    Placed(w.s) && |w.tlb| == |w.s.ids| && InOrder(w)
  }

  ghost predicate InOrder(w: World)
    requires |w.tlb| == |w.s.ids|
  {
    && (forall i :: 0 <= i < |w.tlb| ==> w.tlb[i].covered <= w.complete)
    && (forall k :: 0 <= k < |w.pending| ==> PendingOk(w, w.pending[k]))
    && (forall i, k :: 0 <= i < |w.pending| && 0 <= k < |w.pending| ==> Agree(w.pending[i].use, w.pending[k].use))
    && (forall r :: 0 <= r < |w.rings| ==> RingOk(w.tlb, w.complete, w.rings[r]))
    && (forall r, r' :: 0 <= r < |w.rings| && 0 <= r' < |w.rings| && r != r' ==> Apart(w.rings[r], w.rings[r']))
    && (forall i :: 0 <= i < |w.s.ids| ==> IdOk(w.s.ids[i], i, w.tlb[i], w.complete, w.rings, None))
  }

  // ---- Commands in a row ----

  /** t' serves job j at least as well as t. */
  predicate Better(t: Tlb, t': Tlb, j: Job) {
    && t.covered <= t'.covered
    && ((t'.vm == t.vm && t'.pd == t.pd) || (t'.vm == j.use.vm && t'.pd == j.use.pd))
  }

  lemma {:induction false} CoverBetter(t: Tlb, t': Tlb, xs: seq<Item>, j: Job, c: set<Fence>, c': set<Fence>)
    requires Cover(t, xs, j, c) && Better(t, t', j) && c <= c'
    ensures Cover(t', xs, j, c')
    decreases |xs|
  {
    if xs != [] {
      CoverBetter(After(t, j.use.id, xs[0], c), After(t', j.use.id, xs[0], c'), xs[1..], j,
                  Completed(c, xs[0]), Completed(c', xs[0]));
    }
  }

  lemma {:induction false} CoverPush(t: Tlb, xs: seq<Item>, x: Item, j: Job, c: set<Fence>)
    requires Cover(t, xs, j, c) && t.covered <= c && (x.Flush? ==> Agree(j.use, x.job.use))
    ensures Cover(t, xs + [x], j, c)
    decreases |xs|
  {
    if xs == [] {
      assert (xs + [x])[1..] == [];
    } else {
      assert (xs + [x])[1..] == xs[1..] + [x];
      CoverPush(After(t, j.use.id, xs[0], c), xs[1..], x, j, Completed(c, xs[0]));
    }
  }

  lemma ReadyPop(xs: seq<Item>, c: set<Fence>, u: Option<Fence>)
    requires Ready(xs, c, u) && xs != []
    ensures Ready(xs[1..], Completed(c, xs[0]), u)
  {
  }

  /** A job's own flush, behind its updates, covers it. */
  lemma {:induction false} CoverOwn(t: Tlb, xs: seq<Item>, j: Job, f: Fence, c: set<Fence>)
    requires Ready(xs, c, j.updates)
    ensures Cover(t, xs + [Flush(j, f)], j, c)
    decreases |xs|
  {
    if xs == [] {
      assert (xs + [Flush(j, f)])[1..] == [];
    } else {
      assert (xs + [Flush(j, f)])[1..] == xs[1..] + [Flush(j, f)];
      ReadyPop(xs, c, j.updates);
      CoverOwn(After(t, j.use.id, xs[0], c), xs[1..], j, f, Completed(c, xs[0]));
    }
  }

  /** Appending a job's commands leaves another job of the same user as well off. */
  lemma CoverCommands(t: Tlb, xs: seq<Item>, j: Job, f: Fence, k: Job, c: set<Fence>)
    requires Cover(t, xs, k, c) && t.covered <= c && Agree(k.use, j.use)
    ensures Cover(t, xs + Commands(j, f), k, c)
  {
    if j.flush {
      CoverPush(t, xs, Flush(j, f), k, c);
      CoverPush(t, xs + [Flush(j, f)], Exec(j), k, c);
      assert xs + Commands(j, f) == xs + [Flush(j, f)] + [Exec(j)];
    } else {
      CoverPush(t, xs, Exec(j), k, c);
    }
  }

  /** A flush of id i on the ring comes after update u. */
  predicate FlushBehind(xs: seq<Item>, i: nat, u: Fence, complete: set<Fence>)
    decreases |xs|
  {
    && xs != []
    && ((xs[0].Flush? && xs[0].job.use.id == i && u in complete) || FlushBehind(xs[1..], i, u, Completed(complete, xs[0])))
  }

  /** A job that finds its own user's translations finds its update among them exactly when the
      id was flushed after it, or a flush after it is ahead on the ring. */
  lemma {:induction false} CoverIff(t: Tlb, xs: seq<Item>, j: Job, u: Fence, c: set<Fence>)
    requires j.updates == Some(u) && t.covered <= c && Cover(t, xs, j.(updates := None), c)
    ensures Cover(t, xs, j, c) <==> u in t.covered || FlushBehind(xs, j.use.id, u, c)
    decreases |xs|
  {
    if xs != [] {
      CoverIff(After(t, j.use.id, xs[0], c), xs[1..], j, u, Completed(c, xs[0]));
    }
  }

  lemma OnlyTail(xs: seq<Item>, u: Use)
    requires Only(xs, u) && xs != []
    ensures Only(xs[1..], u)
  {
  }

  lemma {:induction false} OnlyCover(t: Tlb, xs: seq<Item>, v: Job, c: set<Fence>)
    requires Good(t, v) && Only(xs, v.use) && t.covered <= c
    ensures Cover(t, xs, v, c)
    decreases |xs|
  {
    if xs != [] {
      OnlyTail(xs, v.use);
      OnlyCover(After(t, v.use.id, xs[0], c), xs[1..], v, Completed(c, xs[0]));
    }
  }

  lemma {:induction false} AwaitsCover(t: Tlb, xs: seq<Item>, f: Fence, v: Job, c: set<Fence>)
    requires Awaits(xs, f, v, c)
    ensures Cover(t, xs, v, c)
    decreases |xs|
  {
    if Awaits(xs[1..], f, v, Completed(c, xs[0])) {
      AwaitsCover(After(t, v.use.id, xs[0], c), xs[1..], f, v, Completed(c, xs[0]));
    } else {
      OnlyTail(xs, v.use);
      OnlyCover(After(t, v.use.id, xs[0], c), xs[1..], v, c);
    }
  }

  lemma {:induction false} AwaitsNotDone(xs: seq<Item>, f: Fence, v: Job, c: set<Fence>, done: set<Fence>)
    requires Awaits(xs, f, v, c) && NotDone(xs, done)
    ensures f !in done
    decreases |xs|
  {
    if Awaits(xs[1..], f, v, Completed(c, xs[0])) {
      assert forall p :: 0 <= p < |xs[1..]| ==> xs[1..][p] == xs[p + 1];
      AwaitsNotDone(xs[1..], f, v, Completed(c, xs[0]), done);
    }
  }

  lemma {:induction false} AwaitsMore(xs: seq<Item>, f: Fence, v: Job, c: set<Fence>, c': set<Fence>)
    requires Awaits(xs, f, v, c) && c <= c'
    ensures Awaits(xs, f, v, c')
    decreases |xs|
  {
    if Awaits(xs[1..], f, v, Completed(c, xs[0])) {
      AwaitsMore(xs[1..], f, v, Completed(c, xs[0]), Completed(c', xs[0]));
    }
  }

  lemma OnlyAppend(xs: seq<Item>, ys: seq<Item>, u: Use)
    requires Only(xs, u) && Only(ys, u)
    ensures Only(xs + ys, u)
  {
  }

  lemma {:induction false} AwaitsAppend(xs: seq<Item>, ys: seq<Item>, f: Fence, v: Job, c: set<Fence>)
    requires Awaits(xs, f, v, c) && Only(ys, v.use)
    ensures Awaits(xs + ys, f, v, c)
    decreases |xs|
  {
    if Awaits(xs[1..], f, v, Completed(c, xs[0])) {
      assert (xs + ys)[1..] == xs[1..] + ys;
      AwaitsAppend(xs[1..], ys, f, v, Completed(c, xs[0]));
    } else {
      OnlyAppend(xs, ys, v.use);
    }
  }

  /** A flush just put on the ring will do for a job of its user exactly when that job's update
      is complete or ahead. */
  lemma {:induction false} AwaitsNewIff(xs: seq<Item>, j: Job, f: Fence, v: Job, c: set<Fence>)
    requires j.flush && v.use == j.use && NewFence(xs, f)
    ensures Awaits(xs + Commands(j, f), f, v, c) <==> Ready(xs, c, v.updates)
    decreases |xs|
  {
    var ys := xs + Commands(j, f);
    if xs == [] {
      assert ys == Commands(j, f);
      assert !Awaits(ys[1..][1..], f, v, c);
    } else {
      assert ys[0] == xs[0] && ys[1..] == xs[1..] + Commands(j, f);
      assert forall p :: 0 <= p < |xs[1..]| ==> xs[1..][p] == xs[p + 1];
      AwaitsNewIff(xs[1..], j, f, v, Completed(c, xs[0]));
      assert Ready(xs, c, v.updates) <==> Ready(xs[1..], Completed(c, xs[0]), v.updates) by {
        assert xs == [xs[0]] + xs[1..];
      }
    }
  }

  // ---- Granting ----

  /** The grab hands an id with a flush to one ring while another ring still has a job of
      another user on that id. */
  ghost predicate Race(w: World, q: Request)
    requires InRange(w.s)
  {
    var r := Grab(w.s, q).1;
    r.Granted? && r.flush && ClashElsewhere(w.rings, GrantedJob(q, r))
  }

  ghost predicate ClashElsewhere(rings: seq<seq<Item>>, j: Job) {
    exists o, p :: 0 <= o < |rings| && o != j.ring && 0 <= p < |rings[o]| && Clashes(rings[o][p], j)
  }

  predicate Clashes(x: Item, j: Job) {
    x.Exec? && x.job.use.id == j.use.id && x.job.use != j.use
  }

  /** The grab asks for no flush, although the id was not flushed since the job's last update
      and no flush of it is on the job's ring behind that update. */
  predicate Skips(w: World, q: Request)
    requires InRange(w.s)
  {
    var r := Grab(w.s, q).1;
    && r.Granted? && !r.flush && q.updates.Some? && q.ring < |w.rings| && r.id < |w.tlb|
    && q.updates.value !in w.tlb[r.id].covered
    && !FlushBehind(w.rings[q.ring], r.id, q.updates.value, w.complete)
  }

  /** What a grab may do to id i, as far as the TLB is concerned. */
  lemma GrabChanges(s: State, q: Request, i: nat)
    requires InRange(s) && i < |s.ids|
    ensures var (t, r) := Grab(s, q);
            && |t.ids| == |s.ids|
            && (t.ids[i] == s.ids[i] || t.ids[i] == s.ids[i].(pd := 0)
                || (r == Granted(i, true) && t.ids[i].owner == q.vm && t.ids[i].pd == q.pd && t.ids[i].lastFlush.None?
                    && (t.ids[i].flushed == q.updates || t.ids[i].flushed == s.ids[i].flushed)
                    && (i in q.idle || Matches(s.ids[i], q))))
  {
    GrabShape(s, q);
    if Grab(s, q).1.Granted? {
      GrantRecords(s, q);
      if !Grab(s, q).1.flush {
        NoFlushIff(s, q);
      }
    } else {
      RefusalKeeps(s, q);
    }
  }

  lemma GrantKeepsId(w: World, q: Request, i: nat, u: Option<Fence>)
    requires InRange(w.s) && i < |w.s.ids| && i < |w.tlb|
    requires IdOk(w.s.ids[i], i, w.tlb[i], w.complete, w.rings, u)
    ensures i < |Grab(w.s, q).0.ids| && IdOk(Grab(w.s, q).0.ids[i], i, w.tlb[i], w.complete, w.rings, u)
  {
    GrabChanges(w.s, q, i);
  }

  lemma GrantKeepsJob(w: World, q: Request, z: Setup, k: nat)
    requires InRange(w.s) && AllowedGrant(w, q, z) && k < |w.pending| && PendingOk(w, w.pending[k])
    ensures PendingOk(Next(w, Grant(q)), w.pending[k])
  {
    GrabChanges(w.s, q, w.pending[k].use.id);
  }

  /** The test of the last flush does its work: an id whose last flush the ring may rely on
      serves, on that ring, the jobs of its owner, and no other ring works on it for anyone else. */
  lemma UsableServes(w: World, q: Request, z: Setup, i: nat, u: Option<Fence>)
    requires AllowedGrant(w, q, z) && i < |w.s.ids| && i < |w.tlb| && w.tlb[i].covered <= w.complete
    requires IdOk(w.s.ids[i], i, w.tlb[i], w.complete, w.rings, u)
    requires w.s.ids[i].owner != 0 && w.s.ids[i].pd != 0 && Usable(w.s.ids[i].lastFlush, q)
    ensures var v := OwnerJob(w.s.ids[i], i, u);
            && Cover(w.tlb[i], w.rings[q.ring], v, w.complete)
            && forall r :: 0 <= r < |w.rings| && r != q.ring ==> Only(w.rings[r], v.use)
  {
    var v, f := OwnerJob(w.s.ids[i], i, u), w.s.ids[i].lastFlush.value;
    if Settled(v, w.tlb[i], w.rings) {
      OnlyCover(w.tlb[i], w.rings[q.ring], v, w.complete);
    } else {
      AwaitsNotDone(w.rings[f.context], f, v, w.complete, q.done);
      AwaitsCover(w.tlb[i], w.rings[q.ring], f, v, w.complete);
    }
  }

  /** What is good for one job is good for another of the same user with the same updates. */
  lemma {:induction false} CoverSame(t: Tlb, xs: seq<Item>, v: Job, j: Job, c: set<Fence>)
    requires v.use == j.use && v.updates == j.updates && Cover(t, xs, v, c)
    ensures Cover(t, xs, j, c)
    decreases |xs|
  {
    if xs != [] {
      CoverSame(After(t, j.use.id, xs[0], c), xs[1..], v, j, Completed(c, xs[0]));
    }
  }

  /** A grant without a flush is sound exactly when it does not skip a flush it needs. */
  lemma GrantedGoodIff(w: World, q: Request, z: Setup)
    requires Inv(w) && AllowedGrant(w, q, z)
    requires Grab(w.s, q).1.Granted? && !Grab(w.s, q).1.flush
    ensures var j := GrantedJob(q, Grab(w.s, q).1);
            && j.use.id < |w.tlb|
            && (Cover(w.tlb[j.use.id], w.rings[q.ring], j, w.complete) <==> !Skips(w, q))
            && forall r :: 0 <= r < |w.rings| && r != q.ring ==> Only(w.rings[r], j.use)
  {
    NoFlushIff(w.s, q);
    var j := GrantedJob(q, Grab(w.s, q).1);
    var i := j.use.id;
    assert IdOk(w.s.ids[i], i, w.tlb[i], w.complete, w.rings, None);
    UsableServes(w, q, z, i, None);
    CoverSame(w.tlb[i], w.rings[q.ring], OwnerJob(w.s.ids[i], i, None), j.(updates := None), w.complete);
    if q.updates.Some? {
      CoverIff(w.tlb[i], w.rings[q.ring], j, q.updates.value, w.complete);
    } else {
      assert j.(updates := None) == j;
    }
  }

  /** Without a race, a grant with a flush finds no other ring at work on the id for others. */
  lemma FlushedAlone(w: World, q: Request, r: nat)
    requires Inv(w) && !Race(w, q) && Grab(w.s, q).1.Granted? && Grab(w.s, q).1.flush
    requires r < |w.rings| && r != q.ring
    ensures Only(w.rings[r], GrantedJob(q, Grab(w.s, q).1).use)
  {
    var j := GrantedJob(q, Grab(w.s, q).1);
    var xs := w.rings[r];
    forall p | 0 <= p < |xs| && !xs[p].Update?
      ensures Agree(j.use, xs[p].job.use)
    {
      assert RingOk(w.tlb, w.complete, xs) && ItemOk(w.tlb, w.complete, xs, p);
      var e := if xs[p].Flush? then p + 1 else p;
      assert !Clashes(w.rings[r][e], j);
    }
  }

  lemma NewJobOk(w: World, q: Request, z: Setup)
    requires Inv(w) && AllowedGrant(w, q, z) && !Race(w, q) && !Skips(w, q) && Grab(w.s, q).1.Granted?
    ensures PendingOk(Next(w, Grant(q)), GrantedJob(q, Grab(w.s, q).1))
  {
    GrantRecords(w.s, q);
    if Grab(w.s, q).1.flush {
      forall r | 0 <= r < |w.rings| && r != q.ring
        ensures Only(w.rings[r], GrantedJob(q, Grab(w.s, q).1).use)
      {
        FlushedAlone(w, q, r);
      }
    } else {
      GrantedGoodIff(w, q, z);
    }
  }

  /** A new job on an id that others still wait for is of the same user. */
  lemma NewJobAgrees(w: World, q: Request, z: Setup, k: nat)
    requires InRange(w.s) && AllowedGrant(w, q, z) && Grab(w.s, q).1.Granted?
    requires k < |w.pending| && PendingOk(w, w.pending[k])
    ensures Agree(w.pending[k].use, GrantedJob(q, Grab(w.s, q).1).use)
  {
    GrantRecords(w.s, q);
  }

  lemma GrantKeepsPending(w: World, q: Request, z: Setup, k: nat)
    requires Inv(w) && AllowedGrant(w, q, z) && !Race(w, q) && !Skips(w, q) && k < |Next(w, Grant(q)).pending|
    ensures var v := Next(w, Grant(q)); PendingOk(v, v.pending[k])
  {
    if k < |w.pending| {
      assert PendingOk(w, w.pending[k]);
      GrantKeepsJob(w, q, z, k);
    } else {
      NewJobOk(w, q, z);
    }
  }

  lemma GrantKeepsAgree(w: World, q: Request, z: Setup, i: nat, k: nat)
    requires Inv(w) && AllowedGrant(w, q, z)
    requires i < |Next(w, Grant(q)).pending| && k < |Next(w, Grant(q)).pending|
    ensures var v := Next(w, Grant(q)); Agree(v.pending[i].use, v.pending[k].use)
  {
    if i < |w.pending| <= k {
      assert PendingOk(w, w.pending[i]);
      NewJobAgrees(w, q, z, i);
    } else if k < |w.pending| <= i {
      assert PendingOk(w, w.pending[k]);
      NewJobAgrees(w, q, z, k);
    }
  }

  lemma GrantKeepsOrder(w: World, q: Request, z: Setup)
    requires Inv(w) && AllowedGrant(w, q, z) && !Race(w, q) && !Skips(w, q)
    ensures var v := Next(w, Grant(q)); |v.tlb| == |v.s.ids| && InOrder(v)
  {
    var v := Next(w, Grant(q));
    GrabShape(w.s, q);
    forall i | 0 <= i < |v.s.ids|
      ensures IdOk(v.s.ids[i], i, v.tlb[i], v.complete, v.rings, None)
    {
      GrantKeepsId(w, q, i, None);
    }
    forall k | 0 <= k < |v.pending|
      ensures PendingOk(v, v.pending[k])
    {
      GrantKeepsPending(w, q, z, k);
    }
    forall i, k | 0 <= i < |v.pending| && 0 <= k < |v.pending|
      ensures Agree(v.pending[i].use, v.pending[k].use)
    {
      GrantKeepsAgree(w, q, z, i, k);
    }
  }

  lemma GrantKeeps(w: World, q: Request, z: Setup)
    requires Inv(w) && AllowedGrant(w, q, z) && !Race(w, q) && !Skips(w, q)
    ensures Inv(Next(w, Grant(q)))
  {
    GrantKeepsOrder(w, q, z);
    StepKeepsPlaces(w.s, DoGrab(q));
  }

  // ---- The condition of the race, before the call ----

  /** The reuse search finds an id whose last flush the ring may not rely on, while another ring
      still has a job of another user on it. */
  ghost predicate RaceAhead(w: World, q: Request)
    requires InRange(w.s)
  {
    && !q.waiting && q.room && q.syncRoom && FirstIdle(w.s.lru, q.idle, 0) < |w.s.lru| && q.vm !in w.s.reserved
    && var k := LastMatch(w.s, q, |w.s.lru|);
       k.Some? && var i := w.s.lru[k.value];
                  !Usable(w.s.ids[i].lastFlush, q)
                  && ClashElsewhere(w.rings, Job(Use(i, q.vm, q.pd), q.updates, true, q.ring))
  }

  lemma NoClash(rings: seq<seq<Item>>, j: Job)
    requires forall r :: 0 <= r < |rings| && r != j.ring ==> Only(rings[r], j.use)
    ensures !ClashElsewhere(rings, j)
  {
  }

  /** An id that is idle for a ring has no work of others elsewhere. */
  lemma IdleNoClash(w: World, q: Request, z: Setup, j: Job)
    requires AllowedGrant(w, q, z) && j.ring == q.ring && j.use.id in q.idle
    ensures !ClashElsewhere(w.rings, j)
  {
    forall r | 0 <= r < |w.rings| && r != j.ring
      ensures Only(w.rings[r], j.use)
    {
      assert Avoids(w.rings[r], q.idle);
    }
    NoClash(w.rings, j);
  }

  /** Nor has one whose last flush the ring may rely on. */
  lemma UsableNoClash(w: World, q: Request, z: Setup, j: Job)
    requires Inv(w) && AllowedGrant(w, q, z) && j.ring == q.ring && j.use.id < |w.s.ids|
    requires j.use == Use(j.use.id, q.vm, q.pd) && Matches(w.s.ids[j.use.id], q) && Usable(w.s.ids[j.use.id].lastFlush, q)
    ensures !ClashElsewhere(w.rings, j)
  {
    assert IdOk(w.s.ids[j.use.id], j.use.id, w.tlb[j.use.id], w.complete, w.rings, None);
    UsableServes(w, q, z, j.use.id, None);
    NoClash(w.rings, j);
  }

  /** The ways to a grant with a flush: an idle id, a last flush that may be relied on, or the
      reuse search. */
  lemma FlushWays(s: State, q: Request)
    requires InRange(s) && Grab(s, q).1.Granted? && Grab(s, q).1.flush
    ensures var i := Grab(s, q).1.id;
            && i < |s.ids|
            && (i in q.idle || (Matches(s.ids[i], q) && Usable(s.ids[i].lastFlush, q))
                || (!q.waiting && q.room && q.syncRoom && FirstIdle(s.lru, q.idle, 0) < |s.lru| && q.vm !in s.reserved
                    && LastMatch(s, q, |s.lru|).Some? && i == s.lru[LastMatch(s, q, |s.lru|).value]
                    && !Usable(s.ids[i].lastFlush, q)))
  {
  }

  /** A grab races exactly when, before the call, the reuse search has such an id. */
  lemma RaceIffAhead(w: World, q: Request, z: Setup)
    requires Inv(w) && AllowedGrant(w, q, z)
    ensures Race(w, q) <==> RaceAhead(w, q)
  {
    var r := Grab(w.s, q).1;
    if Race(w, q) {
      var j := GrantedJob(q, r);
      FlushWays(w.s, q);
      if r.id in q.idle {
        IdleNoClash(w, q, z, j);
      } else if Matches(w.s.ids[r.id], q) && Usable(w.s.ids[r.id].lastFlush, q) {
        UsableNoClash(w, q, z, j);
      }
    }
    if RaceAhead(w, q) {
      assert r == Granted(w.s.lru[LastMatch(w.s, q, |w.s.lru|).value], true);
    }
  }

  // ---- Putting commands on a ring ----

  lemma CommandsOnly(j: Job, f: Fence, u: Use)
    requires Agree(u, j.use)
    ensures Only(Commands(j, f), u)
  {
  }

  lemma RingAppend(tlb: seq<Tlb>, complete: set<Fence>, xs: seq<Item>, j: Job, f: Fence)
    requires RingOk(tlb, complete, xs) && JobOk(j, |tlb|)
    requires if j.flush then Ready(xs, complete, j.updates) else Cover(tlb[j.use.id], xs, j, complete)
    ensures RingOk(tlb, complete, xs + Commands(j, f))
  {
    var ys := xs + Commands(j, f);
    forall p | 0 <= p < |ys|
      ensures ItemOk(tlb, complete, ys, p)
    {
      if p < |xs| {
        assert ItemOk(tlb, complete, xs, p);
        assert ys[..p] == xs[..p];
      } else if !j.flush {
        assert ys[..p] == xs;
      } else if p > |xs| {
        assert ys[..p] == xs + [Flush(j, f)];
        CoverOwn(tlb[j.use.id], xs, j, f, complete);
      }
    }
  }

  lemma RingUpdate(tlb: seq<Tlb>, complete: set<Fence>, xs: seq<Item>, u: Fence)
    requires RingOk(tlb, complete, xs)
    ensures RingOk(tlb, complete, xs + [Update(u)])
  {
    var ys := xs + [Update(u)];
    forall p | 0 <= p < |ys|
      ensures ItemOk(tlb, complete, ys, p)
    {
      if p < |xs| {
        assert ItemOk(tlb, complete, xs, p);
        assert ys[..p] == xs[..p];
      }
    }
  }

  lemma ApartAppend(xs: seq<Item>, ys: seq<Item>, cs: seq<Item>)
    requires Apart(xs, ys) && Apart(ys, xs) && Apart(cs, ys) && Apart(ys, cs)
    ensures Apart(xs + cs, ys) && Apart(ys, xs + cs)
  {
    forall p | 0 <= p < |ys| && !ys[p].Update?
      ensures Only(xs + cs, ys[p].job.use)
    {
      OnlyAppend(xs, cs, ys[p].job.use);
    }
  }

  lemma ApartCommands(j: Job, f: Fence, ys: seq<Item>)
    requires Only(ys, j.use)
    ensures Apart(Commands(j, f), ys) && Apart(ys, Commands(j, f))
  {
    forall p | 0 <= p < |ys| && !ys[p].Update?
      ensures Only(Commands(j, f), ys[p].job.use)
    {
      assert Agree(j.use, ys[p].job.use);
    }
  }

  lemma RunKeepsJob(w: World, k: nat, f: Fence, m: Job)
    requires InRange(w.s) && k < |w.pending| && PendingOk(w, w.pending[k]) && PendingOk(w, m)
    requires Agree(m.use, w.pending[k].use) && w.tlb[m.use.id].covered <= w.complete
    ensures PendingOk(Next(w, RunJob(k, f)), m)
  {
    var j, v := w.pending[k], Next(w, RunJob(k, f));
    forall r | 0 <= r < |v.rings| && r != m.ring
      ensures Only(v.rings[r], m.use)
    {
      CommandsOnly(j, f, m.use);
      OnlyAppend(w.rings[r], Commands(j, f), m.use);
    }
    if !m.flush {
      CoverCommands(w.tlb[m.use.id], w.rings[m.ring], j, f, m, w.complete);
    }
  }

  lemma IdAppend(v: Job, f: Fence, t: Tlb, rings: seq<seq<Item>>, c: set<Fence>, r: nat, cs: seq<Item>)
    requires Settled(v, t, rings) || Underway(v, f, rings, c)
    requires r < |rings| && Only(cs, v.use)
    ensures var rings' := rings[r := rings[r] + cs]; Settled(v, t, rings') || Underway(v, f, rings', c)
  {
    var xs := rings[r];
    if Only(xs, v.use) {
      OnlyAppend(xs, cs, v.use);
    }
    if Awaits(xs, f, v, c) {
      AwaitsAppend(xs, cs, f, v, c);
    }
  }

  /** The last flush still does for the owner's job once another job, or this one, is on its ring: for a
      flush that becomes the last one, if and only if the update is complete or ahead of it. */
  lemma RunIdIff(w: World, k: nat, f: Fence, i: nat, u: Option<Fence>)
    requires InRange(w.s) && k < |w.pending| && PendingOk(w, w.pending[k]) && f.context == w.pending[k].ring
    requires NewFence(w.rings[w.pending[k].ring], f)
    requires i < |w.s.ids| && i < |w.tlb| && w.tlb[i].covered <= w.complete
    requires IdOk(w.s.ids[i], i, w.tlb[i], w.complete, w.rings, u)
    ensures var v := Next(w, RunJob(k, f)); var j := w.pending[k];
            && i < |v.s.ids|
            && (IdOk(v.s.ids[i], i, v.tlb[i], v.complete, v.rings, u) <==>
                  !(j.flush && j.use.id == i && w.s.ids[i].owner == j.use.vm && w.s.ids[i].pd == j.use.pd
                    && !Ready(w.rings[j.ring], w.complete, u)))
  {
    var j, v := w.pending[k], Next(w, RunJob(k, f));
    var id := v.s.ids[i];
    var o := OwnerJob(id, i, u);
    if id.lastFlush.Some? && id.owner != 0 && id.pd != 0 {
      assert Agree(o.use, j.use);
      if j.flush && i == j.use.id {
        AwaitsNewIff(w.rings[j.ring], j, f, o, w.complete);
      } else {
        CommandsOnly(j, f, o.use);
        IdAppend(o, id.lastFlush.value, w.tlb[i], w.rings, w.complete, j.ring, Commands(j, f));
      }
    }
  }

  /** The jobs that are left were there before. */
  lemma LeftOver(w: World, k: nat, f: Fence, i: nat)
    requires InRange(w.s) && k < |w.pending| && PendingOk(w, w.pending[k]) && i < |Next(w, RunJob(k, f)).pending|
    ensures var i' := if i < k then i else i + 1; i' < |w.pending| && Next(w, RunJob(k, f)).pending[i] == w.pending[i']
  {
  }

  lemma RunKeepsRings(w: World, k: nat, f: Fence)
    requires Inv(w) && k < |w.pending|
    ensures var v := Next(w, RunJob(k, f));
            && (forall r :: 0 <= r < |v.rings| ==> RingOk(v.tlb, v.complete, v.rings[r]))
            && forall r, r' :: 0 <= r < |v.rings| && 0 <= r' < |v.rings| && r != r' ==> Apart(v.rings[r], v.rings[r'])
  {
    var j, v := w.pending[k], Next(w, RunJob(k, f));
    assert PendingOk(w, j);
    RingAppend(w.tlb, w.complete, w.rings[j.ring], j, f);
    forall r, r' | 0 <= r < |v.rings| && 0 <= r' < |v.rings| && r != r'
      ensures Apart(v.rings[r], v.rings[r'])
    {
      assert Apart(w.rings[r], w.rings[r']) && Apart(w.rings[r'], w.rings[r]);
      if r == j.ring {
        ApartCommands(j, f, w.rings[r']);
        ApartAppend(w.rings[r], w.rings[r'], Commands(j, f));
      } else if r' == j.ring {
        ApartCommands(j, f, w.rings[r]);
        ApartAppend(w.rings[r'], w.rings[r], Commands(j, f));
      }
    }
  }

  lemma RunKeepsPending(w: World, k: nat, f: Fence)
    requires Inv(w) && k < |w.pending|
    ensures var v := Next(w, RunJob(k, f));
            && (forall i :: 0 <= i < |v.pending| ==> PendingOk(v, v.pending[i]))
            && forall i, i' :: 0 <= i < |v.pending| && 0 <= i' < |v.pending| ==> Agree(v.pending[i].use, v.pending[i'].use)
  {
    var v := Next(w, RunJob(k, f));
    assert PendingOk(w, w.pending[k]);
    forall i | 0 <= i < |v.pending|
      ensures PendingOk(v, v.pending[i])
    {
      LeftOver(w, k, f, i);
      RunKeepsJob(w, k, f, v.pending[i]);
    }
    forall i, i' | 0 <= i < |v.pending| && 0 <= i' < |v.pending|
      ensures Agree(v.pending[i].use, v.pending[i'].use)
    {
      LeftOver(w, k, f, i);
      LeftOver(w, k, f, i');
    }
  }

  lemma RunJobKeeps(w: World, k: nat, f: Fence, z: Setup)
    requires Inv(w) && Allowed(w, RunJob(k, f), z)
    ensures Inv(Next(w, RunJob(k, f)))
  {
    var v := Next(w, RunJob(k, f));
    assert PendingOk(w, w.pending[k]);
    StepKeepsPlaces(w.s, DoFlush(w.pending[k].use.id, f));
    RunKeepsRings(w, k, f);
    RunKeepsPending(w, k, f);
    forall i | 0 <= i < |v.s.ids|
      ensures IdOk(v.s.ids[i], i, v.tlb[i], v.complete, v.rings, None)
    {
      RunIdIff(w, k, f, i, None);
    }
  }

  // ---- Issuing an update ----

  lemma IssueKeepsId(w: World, u: Fence, r: nat, i: nat, o: Option<Fence>)
    requires InRange(w.s) && r < |w.rings| && i < |w.s.ids| && i < |w.tlb|
    requires IdOk(w.s.ids[i], i, w.tlb[i], w.complete, w.rings, o)
    ensures var v := Next(w, Issue(u, r)); IdOk(v.s.ids[i], i, v.tlb[i], v.complete, v.rings, o)
  {
    var id := w.s.ids[i];
    if id.lastFlush.Some? && id.owner != 0 && id.pd != 0 {
      IdAppend(OwnerJob(id, i, o), id.lastFlush.value, w.tlb[i], w.rings, w.complete, r, [Update(u)]);
    }
  }

  lemma IssueKeepsJob(w: World, u: Fence, r: nat, j: Job)
    requires InRange(w.s) && r < |w.rings| && PendingOk(w, j) && w.tlb[j.use.id].covered <= w.complete
    ensures PendingOk(Next(w, Issue(u, r)), j)
  {
    var v := Next(w, Issue(u, r));
    forall o | 0 <= o < |v.rings| && o != j.ring
      ensures Only(v.rings[o], j.use)
    {
      OnlyAppend(w.rings[o], [Update(u)], j.use);
    }
    if !j.flush {
      CoverPush(w.tlb[j.use.id], w.rings[j.ring], Update(u), j, w.complete);
    }
  }

  lemma IssueKeepsRings(w: World, u: Fence, r: nat)
    requires Inv(w) && r < |w.rings|
    ensures var v := Next(w, Issue(u, r));
            && (forall o :: 0 <= o < |v.rings| ==> RingOk(v.tlb, v.complete, v.rings[o]))
            && forall o, o' :: 0 <= o < |v.rings| && 0 <= o' < |v.rings| && o != o' ==> Apart(v.rings[o], v.rings[o'])
  {
    var v := Next(w, Issue(u, r));
    RingUpdate(w.tlb, w.complete, w.rings[r], u);
    forall o, o' | 0 <= o < |v.rings| && 0 <= o' < |v.rings| && o != o'
      ensures Apart(v.rings[o], v.rings[o'])
    {
      assert Apart(w.rings[o], w.rings[o']) && Apart(w.rings[o'], w.rings[o]);
      if o == r {
        ApartAppend(w.rings[o], w.rings[o'], [Update(u)]);
      } else if o' == r {
        ApartAppend(w.rings[o'], w.rings[o], [Update(u)]);
      }
    }
  }

  lemma IssueKeeps(w: World, u: Fence, r: nat)
    requires Inv(w) && r < |w.rings|
    ensures Inv(Next(w, Issue(u, r)))
  {
    var v := Next(w, Issue(u, r));
    IssueKeepsRings(w, u, r);
    forall k | 0 <= k < |v.pending|
      ensures PendingOk(v, v.pending[k])
    {
      IssueKeepsJob(w, u, r, w.pending[k]);
    }
    forall i | 0 <= i < |v.s.ids|
      ensures IdOk(v.s.ids[i], i, v.tlb[i], v.complete, v.rings, None)
    {
      IssueKeepsId(w, u, r, i, None);
    }
  }

  // ---- Executing ----

  lemma ItemPop(tlb: seq<Tlb>, tlb': seq<Tlb>, c: set<Fence>, xs: seq<Item>, p: nat)
    requires p + 1 < |xs| && ItemOk(tlb, c, xs, p + 1) && |tlb'| == |tlb|
    requires forall i :: 0 <= i < |tlb| ==> tlb'[i] == After(tlb[i], i, xs[0], c)
    ensures ItemOk(tlb', Completed(c, xs[0]), xs[1..], p)
  {
    assert xs[1..][p] == xs[p + 1];
    if xs[p + 1].Exec? {
      assert xs[..p + 1][1..] == xs[1..][..p];
    }
  }

  /** Another ring's command, for the same user if it is on the id, does a job no harm. */
  lemma CoverOther(t: Tlb, xs: seq<Item>, j: Job, x: Item, c: set<Fence>)
    requires Cover(t, xs, j, c) && t.covered <= c && (x.Flush? ==> Agree(j.use, x.job.use))
    ensures Cover(After(t, j.use.id, x, c), xs, j, Completed(c, x))
  {
    CoverBetter(t, After(t, j.use.id, x, c), xs, j, c, Completed(c, x));
  }

  lemma ItemOther(tlb: seq<Tlb>, tlb': seq<Tlb>, c: set<Fence>, x: Item, ys: seq<Item>, p: nat)
    requires p < |ys| && ItemOk(tlb, c, ys, p) && |tlb'| == |tlb| && (!x.Update? ==> Only(ys, x.job.use))
    requires forall i :: 0 <= i < |tlb| ==> tlb[i].covered <= c && tlb'[i] == After(tlb[i], i, x, c)
    ensures ItemOk(tlb', Completed(c, x), ys, p)
  {
    if ys[p].Exec? {
      var j := ys[p].job;
      assert !x.Update? ==> Agree(x.job.use, j.use);
      CoverOther(tlb[j.use.id], ys[..p], j, x, c);
    }
  }

  lemma ApartPop(xs: seq<Item>, ys: seq<Item>)
    requires xs != [] && Apart(xs, ys) && Apart(ys, xs)
    ensures Apart(xs[1..], ys) && Apart(ys, xs[1..])
  {
    forall p | 0 <= p < |ys| && !ys[p].Update?
      ensures Only(xs[1..], ys[p].job.use)
    {
      OnlyTail(xs, ys[p].job.use);
    }
  }

  lemma ExecuteKeepsRing(w: World, r: nat, o: nat)
    requires Inv(w) && r < |w.rings| && w.rings[r] != [] && o < |w.rings|
    ensures var v := Next(w, Execute(r)); RingOk(v.tlb, v.complete, v.rings[o])
  {
    var v := Next(w, Execute(r));
    var xs := w.rings[r];
    assert RingOk(w.tlb, w.complete, w.rings[o]);
    forall p | 0 <= p < |v.rings[o]|
      ensures ItemOk(v.tlb, v.complete, v.rings[o], p)
    {
      if o == r {
        assert ItemOk(w.tlb, w.complete, xs, p + 1);
        ItemPop(w.tlb, v.tlb, w.complete, xs, p);
      } else {
        assert Apart(xs, w.rings[o]) && ItemOk(w.tlb, w.complete, w.rings[o], p);
        ItemOther(w.tlb, v.tlb, w.complete, xs[0], w.rings[o], p);
      }
    }
  }

  lemma ExecuteKeepsApart(w: World, r: nat, o: nat, o': nat)
    requires Inv(w) && r < |w.rings| && w.rings[r] != [] && o < |w.rings| && o' < |w.rings| && o != o'
    ensures var v := Next(w, Execute(r)); Apart(v.rings[o], v.rings[o'])
  {
    assert Apart(w.rings[o], w.rings[o']) && Apart(w.rings[o'], w.rings[o]);
    if o == r {
      ApartPop(w.rings[o], w.rings[o']);
    } else if o' == r {
      ApartPop(w.rings[o'], w.rings[o]);
    }
  }

  lemma ExecuteKeepsJob(w: World, r: nat, j: Job)
    requires InRange(w.s) && r < |w.rings| && w.rings[r] != [] && PendingOk(w, j) && w.tlb[j.use.id].covered <= w.complete
    ensures PendingOk(Next(w, Execute(r)), j)
  {
    var v, xs := Next(w, Execute(r)), w.rings[r];
    forall o | 0 <= o < |v.rings| && o != j.ring
      ensures Only(v.rings[o], j.use)
    {
      if o == r {
        OnlyTail(xs, j.use);
      }
    }
    if j.flush {
      if r == j.ring {
        ReadyPop(xs, w.complete, j.updates);
      }
    } else if r != j.ring {
      assert !xs[0].Update? ==> Agree(j.use, xs[0].job.use);
      CoverOther(w.tlb[j.use.id], w.rings[j.ring], j, xs[0], w.complete);
    }
  }

  lemma SettledPop(v: Job, t: Tlb, rings: seq<seq<Item>>, r: nat, c: set<Fence>)
    requires r < |rings| && rings[r] != [] && Settled(v, t, rings) && t.covered <= c
    ensures Settled(v, After(t, v.use.id, rings[r][0], c), rings[r := rings[r][1..]])
  {
    assert !rings[r][0].Update? ==> Agree(v.use, rings[r][0].job.use);
    OnlyTail(rings[r], v.use);
  }

  lemma UnderwayPop(v: Job, f: Fence, t: Tlb, rings: seq<seq<Item>>, r: nat, c: set<Fence>)
    requires r < |rings| && rings[r] != [] && Underway(v, f, rings, c)
    ensures var rings' := rings[r := rings[r][1..]];
            Underway(v, f, rings', Completed(c, rings[r][0])) || Settled(v, After(t, v.use.id, rings[r][0], c), rings')
  {
    if r != f.context {
      OnlyTail(rings[r], v.use);
      AwaitsMore(rings[f.context], f, v, c, Completed(c, rings[r][0]));
    } else if !Awaits(rings[r][1..], f, v, Completed(c, rings[r][0])) {
      OnlyTail(rings[r], v.use);
    }
  }

  lemma ExecuteKeepsId(w: World, r: nat, i: nat, u: Option<Fence>)
    requires InRange(w.s) && r < |w.rings| && w.rings[r] != [] && i < |w.s.ids| && i < |w.tlb|
    requires w.tlb[i].covered <= w.complete && IdOk(w.s.ids[i], i, w.tlb[i], w.complete, w.rings, u)
    ensures var v := Next(w, Execute(r)); IdOk(v.s.ids[i], i, v.tlb[i], v.complete, v.rings, u)
  {
    var id := w.s.ids[i];
    var o := OwnerJob(id, i, u);
    if id.lastFlush.Some? && id.owner != 0 && id.pd != 0 {
      if Settled(o, w.tlb[i], w.rings) {
        SettledPop(o, w.tlb[i], w.rings, r, w.complete);
      } else {
        UnderwayPop(o, id.lastFlush.value, w.tlb[i], w.rings, r, w.complete);
      }
    }
  }

  lemma ExecuteKeeps(w: World, r: nat)
    requires Inv(w) && r < |w.rings| && w.rings[r] != []
    ensures Inv(Next(w, Execute(r)))
  {
    var v := Next(w, Execute(r));
    forall o | 0 <= o < |v.rings|
      ensures RingOk(v.tlb, v.complete, v.rings[o])
    {
      ExecuteKeepsRing(w, r, o);
    }
    forall o, o' | 0 <= o < |v.rings| && 0 <= o' < |v.rings| && o != o'
      ensures Apart(v.rings[o], v.rings[o'])
    {
      ExecuteKeepsApart(w, r, o, o');
    }
    forall k | 0 <= k < |v.pending|
      ensures PendingOk(v, v.pending[k])
    {
      ExecuteKeepsJob(w, r, w.pending[k]);
    }
    forall i | 0 <= i < |v.s.ids|
      ensures IdOk(v.s.ids[i], i, v.tlb[i], v.complete, v.rings, None)
    {
      ExecuteKeepsId(w, r, i, None);
    }
  }

  // ---- Managing ----

  lemma ManageChanges(s: State, a: Action)
    requires InRange(s) && (a.DoAlloc? || a.DoFree? || a.DoReset?)
    ensures |Step(s, a).ids| == |s.ids|
    ensures forall i :: 0 <= i < |s.ids| ==>
              Step(s, a).ids[i] == s.ids[i] || Step(s, a).ids[i] == s.ids[i].(owner := 0)
  {
  }

  lemma ManageKeepsId(w: World, a: Action, i: nat, u: Option<Fence>)
    requires InRange(w.s) && (a.DoAlloc? || a.DoFree? || a.DoReset?) && i < |w.s.ids| && i < |w.tlb|
    requires IdOk(w.s.ids[i], i, w.tlb[i], w.complete, w.rings, u)
    ensures i < |Step(w.s, a).ids| && IdOk(Step(w.s, a).ids[i], i, w.tlb[i], w.complete, w.rings, u)
  {
    ManageChanges(w.s, a);
  }

  lemma ManageKeepsJob(w: World, a: Action, j: Job)
    requires InRange(w.s) && (a.DoAlloc? || a.DoFree? || a.DoReset?) && PendingOk(w, j)
    ensures PendingOk(w.(s := Step(w.s, a)), j)
  {
    ManageChanges(w.s, a);
  }

  lemma ManageKeepsOrder(w: World, a: Action, v: World)
    requires InRange(w.s) && |w.tlb| == |w.s.ids| && InOrder(w) && (a.DoAlloc? || a.DoFree? || a.DoReset?)
    requires v == w.(s := Step(w.s, a))
    ensures |v.tlb| == |v.s.ids| && InOrder(v)
  {
    ManageChanges(w.s, a);
    forall i | 0 <= i < |v.s.ids|
      ensures IdOk(v.s.ids[i], i, v.tlb[i], v.complete, v.rings, None)
    {
      ManageKeepsId(w, a, i, None);
    }
    forall k | 0 <= k < |v.pending|
      ensures PendingOk(v, v.pending[k])
    {
      ManageKeepsJob(w, a, w.pending[k]);
    }
  }

  lemma ManageKeepsPlaces(s: State, a: Action, t: State)
    requires Placed(s) && t == Step(s, a)
    ensures Placed(t)
  {
    StepKeepsPlaces(s, a);
  }

  lemma ManageKeeps(w: World, a: Action)
    requires Inv(w) && (a.DoAlloc? || a.DoFree? || a.DoReset?)
    ensures Inv(Next(w, Manage(a)))
  {
    var v := Next(w, Manage(a));
    ManageKeepsOrder(w, a, v);
    ManageKeepsPlaces(w.s, a, v.s);
  }

  // ---- Any step ----

  ghost predicate Races(w: World, e: Event)
    requires InRange(w.s)
  {
    e.Grant? && Race(w, e.q)
  }

  predicate SkipsFlush(w: World, e: Event)
    requires InRange(w.s)
  {
    e.Grant? && Skips(w, e.q)
  }

  lemma NextKeeps(w: World, e: Event, z: Setup)
    requires Inv(w) && Allowed(w, e, z) && !Races(w, e) && !SkipsFlush(w, e)
    ensures Inv(Next(w, e))
  {
    match e
    case Issue(u, r) => IssueKeeps(w, u, r);
    case Grant(q) => GrantKeeps(w, q, z);
    case RunJob(k, f) => RunJobKeeps(w, k, f, z);
    case Execute(r) => ExecuteKeeps(w, r);
    case Manage(a) => ManageKeeps(w, a);
  }

  /** Some ring is at a job whose id does not hold the job's translations. */
  ghost predicate Stale(w: World) {
    exists r :: 0 <= r < |w.rings| && w.rings[r] != [] && StaleHead(w.tlb, w.rings[r][0])
  }

  predicate StaleHead(tlb: seq<Tlb>, x: Item) {
    x.Exec? && (x.job.use.id >= |tlb| || !Good(tlb[x.job.use.id], x.job))
  }

  lemma InvNotStale(w: World)
    requires Inv(w)
    ensures !Stale(w)
  {
    forall r | 0 <= r < |w.rings| && w.rings[r] != []
      ensures !StaleHead(w.tlb, w.rings[r][0])
    {
      assert RingOk(w.tlb, w.complete, w.rings[r]) && ItemOk(w.tlb, w.complete, w.rings[r], 0);
    }
  }
}
