/** The VMID manager: which id a job gets, whether it must flush the TLB first, and
    the reservation of ids by single VMs. A call runs under the manager's lock. */
module Vmid {
  import opened Wrappers
  import opened Seqs

  datatype Fence = Fence(context: nat, seqno: int)

  /** dma_fence_is_later: never true across contexts. */
  predicate IsLater(f: Fence, g: Fence) {
    f.context == g.context && f.seqno > g.seqno
  }

  datatype Id = Id(owner: nat, pd: nat, lastFlush: Option<Fence>, flushed: Option<Fence>)

  /** reserved maps a VM to its own id; owner 0 is nobody. */
  datatype State = State(ids: seq<Id>, lru: seq<nat>, reserved: map<nat, nat>, reservedNum: int)

  /** A job's request and what it meets: the ring's fence context, the signaled fences,
      the ids without a fence in the way, whether an earlier wait is pending, and
      whether each allocation succeeds. */
  datatype Request = Request(vm: nat, pd: nat, cpuUpdate: bool, updates: Option<Fence>, ring: nat, done: set<Fence>,
                             idle: set<nat>, waiting: bool, room: bool, syncRoom: bool)

  datatype Result = Granted(id: nat, flush: bool) | Later | NoMemory

  const MaxReserved: int := 1

  // ---- The rules for one id ----

  predicate Usable(last: Option<Fence>, q: Request) {
    last.Some? && (last.value.context == q.ring || last.value in q.done)
  }

  /** The updates a reserved id has not flushed yet. */
  function Missing(id: Id, q: Request): Option<Fence> {
    if q.updates.Some? && id.flushed.Some? && q.updates.value.context == id.flushed.value.context
       && !IsLater(q.updates.value, id.flushed.value)
    then None else q.updates
  }

  predicate ReservedStale(id: Id, q: Request) {
    id.owner != q.vm || q.pd != id.pd || Missing(id, q).Some? || !Usable(id.lastFlush, q)
  }

  predicate Matches(id: Id, q: Request) {
    id.owner == q.vm && id.pd == q.pd
  }

  predicate UsedNeedsUpdate(id: Id, q: Request) {
    q.updates.Some? && (id.flushed.None? || IsLater(q.updates.value, id.flushed.value))
  }

  function Assigned(id: Id, q: Request, flush: bool): Id {
    id.(pd := q.pd, owner := q.vm, lastFlush := if flush then None else id.lastFlush)
  }

  // ---- The lists ----

  /** The first id of the list that is idle, from index k on. */
  function FirstIdle(lru: seq<nat>, idle: set<nat>, k: nat): (r: nat)
    requires k <= |lru|
    ensures k <= r <= |lru|
    ensures forall j :: k <= j < r ==> lru[j] !in idle
    ensures r < |lru| ==> lru[r] in idle
    decreases |lru| - k
  {
    if k == |lru| || lru[k] in idle then k else FirstIdle(lru, idle, k + 1)
  }

  /** The last index below k whose id matches the request; k itself stands for none, as |lru|. */
  function LastMatch(s: State, q: Request, k: nat): (r: Option<nat>)
    requires k <= |s.lru| && InRange(s)
    ensures r.Some? ==> r.value < k && Matches(s.ids[s.lru[r.value]], q)
    ensures forall j :: (if r.Some? then r.value + 1 else 0) <= j < k ==> !Matches(s.ids[s.lru[j]], q)
  {
    if k == 0 then None
    else if Matches(s.ids[s.lru[k - 1]], q) then Some(k - 1)
    else LastMatch(s, q, k - 1)
  }

  function ToTail(lru: seq<nat>, k: nat): seq<nat>
    requires k < |lru|
  {
    lru[..k] + lru[k + 1..] + [lru[k]]
  }

  // ---- The calls ----

  predicate InRange(s: State) {
    && (forall k :: 0 <= k < |s.lru| ==> 1 <= s.lru[k] < |s.ids|)
    && (forall vm :: vm in s.reserved ==> 1 <= s.reserved[vm] < |s.ids|)
  }

  function GrabReserved(s: State, q: Request, i: nat): (State, Result)
    requires i < |s.ids|
  {
    var id := s.ids[i];
    var stale := ReservedStale(id, q);
    var s1 := if stale then s.(ids := s.ids[i := id.(pd := 0)]) else s;
    if stale && i !in q.idle then (s1, if q.syncRoom then Later else NoMemory)
    else if !q.syncRoom then (s1, NoMemory)
    else
      var flush := q.cpuUpdate || stale;
      var flushed := if Missing(id, q).Some? then q.updates else id.flushed;
      (s.(ids := s.ids[i := Assigned(id.(flushed := flushed), q, flush)]), Granted(i, flush))
  }

  function GrabUsed(s: State, q: Request, k: nat): (State, Result)
    requires k < |s.lru| && s.lru[k] < |s.ids|
  {
    var i := s.lru[k];
    var id := s.ids[i];
    if !q.syncRoom then (s, NoMemory)
    else
      var flush := q.cpuUpdate || !Usable(id.lastFlush, q) || UsedNeedsUpdate(id, q);
      var flushed := if UsedNeedsUpdate(id, q) then q.updates else id.flushed;
      (s.(ids := s.ids[i := Assigned(id.(flushed := flushed), q, flush)], lru := ToTail(s.lru, k)), Granted(i, flush))
  }

  function GrabFresh(s: State, q: Request, k: nat): (State, Result)
    requires k < |s.lru| && s.lru[k] < |s.ids|
  {
    var i := s.lru[k];
    if !q.syncRoom then (s, NoMemory)
    else
      (s.(ids := s.ids[i := Assigned(s.ids[i].(flushed := q.updates), q, true)], lru := ToTail(s.lru, k)),
       Granted(i, true))
  }

  /** gsgpu_vmid_grab. */
  function Grab(s: State, q: Request): (State, Result)
    requires InRange(s)
  {
    if q.waiting then (s, if q.room then Later else NoMemory)
    else if !q.room then (s, NoMemory)
    else
      var k := FirstIdle(s.lru, q.idle, 0);
      if k == |s.lru| then (s, if q.syncRoom then Later else NoMemory)
      else if q.vm in s.reserved then GrabReserved(s, q, s.reserved[q.vm])
      else match LastMatch(s, q, |s.lru|)
        case Some(j) => GrabUsed(s, q, j)
        case None => GrabFresh(s, q, k)
  }

  /** gsgpu_vmid_alloc_reserved; false is -EINVAL. */
  function AllocReserved(s: State, vm: nat): (State, bool) {
    if vm in s.reserved then (s, true)
    else if s.reservedNum + 1 > MaxReserved || s.lru == [] then (s, false)
    else (s.(lru := s.lru[1..], reserved := s.reserved[vm := s.lru[0]], reservedNum := s.reservedNum + 1), true)
  }

  function FreeReserved(s: State, vm: nat): State {
    if vm in s.reserved then
      s.(lru := [s.reserved[vm]] + s.lru, reserved := s.reserved - {vm}, reservedNum := s.reservedNum - 1)
    else s
  }

  function Reset(s: State, i: nat): State {
    if i < |s.ids| then s.(ids := s.ids[i := s.ids[i].(owner := 0)]) else s
  }

  /** gsgpu_vm_flush records the fence of an emitted flush. */
  function Flushed(s: State, i: nat, f: Fence): State {
    if i < |s.ids| then s.(ids := s.ids[i := s.ids[i].(lastFlush := Some(f))]) else s
  }

  // ---- Every id has one place ----

  /** On the list once, or reserved by exactly one VM. */
  ghost predicate Placed(s: State) {
    && |s.ids| >= 2 && InRange(s) && Distinct(s.lru)
    && s.reservedNum == |s.reserved| && s.reservedNum <= MaxReserved
    && (forall v, w :: v in s.reserved && w in s.reserved && s.reserved[v] == s.reserved[w] ==> v == w)
    && forall i :: 1 <= i < |s.ids| ==> (i in s.lru <==> !exists v :: v in s.reserved && s.reserved[v] == i)
  }

  datatype Action = DoGrab(q: Request) | DoAlloc(vm: nat) | DoFree(vm: nat) | DoReset(i: nat) | DoFlush(i: nat, f: Fence)

  function Step(s: State, a: Action): State
    requires InRange(s)
  {
    match a
    case DoGrab(q) => Grab(s, q).0
    case DoAlloc(vm) => AllocReserved(s, vm).0
    case DoFree(vm) => FreeReserved(s, vm)
    case DoReset(i) => Reset(s, i)
    case DoFlush(i, f) => Flushed(s, i, f)
  }

  lemma ToTailKeeps(lru: seq<nat>, k: nat)
    requires k < |lru| && Distinct(lru)
    ensures Distinct(ToTail(lru, k)) && forall i :: i in ToTail(lru, k) <==> i in lru
  {
    var t := ToTail(lru, k);
    assert lru == lru[..k] + [lru[k]] + lru[k + 1..];
    assert forall j :: 0 <= j < |lru| - 1 ==> t[j] == lru[if j < k then j else j + 1];
  }

  /** A grab changes ids in place and at most moves one of them to the tail. */
  lemma GrabShape(s: State, q: Request)
    requires InRange(s)
    ensures var t := Grab(s, q).0;
            && |t.ids| == |s.ids| && t.reserved == s.reserved && t.reservedNum == s.reservedNum
            && (t.lru == s.lru || exists k :: 0 <= k < |s.lru| && t.lru == ToTail(s.lru, k))
  {
  }

  lemma SamePlaces(s: State, t: State)
    requires Placed(s) && |t.ids| == |s.ids| && t.reserved == s.reserved && t.reservedNum == s.reservedNum
    requires Distinct(t.lru) && forall i :: i in t.lru <==> i in s.lru
    ensures Placed(t)
  {
    forall k | 0 <= k < |t.lru|
      ensures 1 <= t.lru[k] < |t.ids|
    {
      assert t.lru[k] in s.lru;
    }
  }

  lemma GrabKeepsPlaces(s: State, q: Request)
    requires Placed(s)
    ensures Placed(Grab(s, q).0)
  {
    GrabShape(s, q);
    var t := Grab(s, q).0;
    if t.lru != s.lru {
      var k :| 0 <= k < |s.lru| && t.lru == ToTail(s.lru, k);
      ToTailKeeps(s.lru, k);
    }
    SamePlaces(s, t);
  }

  /** With no VM reserving, every id is on the list. */
  lemma AllListed(s: State)
    requires Placed(s) && s.reserved == map[]
    ensures forall i :: 1 <= i < |s.ids| ==> i in s.lru
    ensures s.lru != []
  {
    assert forall i :: 1 <= i < |s.ids| ==> (i in s.lru <==> !exists v :: v in s.reserved && s.reserved[v] == i);
    assert 1 in s.lru;
  }

  lemma TakeFirst(s: State, vm: nat)
    requires Placed(s) && s.reserved == map[]
    ensures s.lru != [] && Placed(s.(lru := s.lru[1..], reserved := map[vm := s.lru[0]], reservedNum := 1))
  {
    AllListed(s);
    var t := s.(lru := s.lru[1..], reserved := map[vm := s.lru[0]], reservedNum := 1);
    assert s.lru == [s.lru[0]] + t.lru;
    assert forall k :: 0 <= k < |t.lru| ==> t.lru[k] == s.lru[k + 1];
    forall i | 1 <= i < |t.ids|
      ensures i in t.lru <==> !exists v :: v in t.reserved && t.reserved[v] == i
    {
      assert i in s.lru;
      assert vm in t.reserved && t.reserved[vm] == s.lru[0];
    }
  }

  /** A VM gets an id of its own exactly when it has one already or nobody has. */
  lemma AllocKeepsPlaces(s: State, vm: nat)
    requires Placed(s)
    ensures Placed(AllocReserved(s, vm).0)
    ensures AllocReserved(s, vm).1 <==> vm in s.reserved || s.reserved == map[]
    ensures AllocReserved(s, vm).1 <==> vm in AllocReserved(s, vm).0.reserved
  {
    if s.reserved == map[] {
      TakeFirst(s, vm);
      assert s.reserved[vm := s.lru[0]] == map[vm := s.lru[0]];
    } else {
      assert |s.reserved| > 0;
    }
  }

  lemma FreeKeepsPlaces(s: State, vm: nat)
    requires Placed(s)
    ensures Placed(FreeReserved(s, vm)) && vm !in FreeReserved(s, vm).reserved
  {
    var t := FreeReserved(s, vm);
    if vm in s.reserved {
      assert |s.reserved| == 1;
      assert s.reserved.Keys == {vm} by {
        assert |s.reserved.Keys - {vm}| == 0;
      }
      assert t.reserved == map[];
      assert s.reserved[vm] !in s.lru;
      assert forall i :: i in t.lru <==> i == s.reserved[vm] || i in s.lru;
    }
  }

  /** Every VMID from 1 up stays on the list once or with one VM, whatever is called. */
  lemma StepKeepsPlaces(s: State, a: Action)
    requires Placed(s)
    ensures Placed(Step(s, a)) && |Step(s, a).ids| == |s.ids|
  {
    match a
    case DoGrab(q) =>
      GrabShape(s, q);
      GrabKeepsPlaces(s, q);
    case DoAlloc(vm) => AllocKeepsPlaces(s, vm);
    case DoFree(vm) => FreeKeepsPlaces(s, vm);
    case DoReset(i) => SamePlaces(s, Reset(s, i));
    case DoFlush(i, f) => SamePlaces(s, Flushed(s, i, f));
  }

  // ---- When a job may skip the flush ----

  /** The id has flushed at least the job's last update. */
  predicate Fresh(updates: Option<Fence>, flushed: Option<Fence>) {
    updates.None? || (flushed.Some? && updates.value.context == flushed.value.context
                      && updates.value.seqno <= flushed.value.seqno)
  }

  /** The two fences can be compared. */
  predicate SameTimeline(updates: Option<Fence>, flushed: Option<Fence>) {
    updates.None? || flushed.None? || updates.value.context == flushed.value.context
  }

  /** A grant without a flush request: the id had the same owner and page directory and a
      usable last flush. It had flushed the job's last update if and only if the two
      fences are of one context; with a reserved id they always are. */
  lemma NoFlushIff(s: State, q: Request)
    requires InRange(s) && Grab(s, q).1.Granted? && !Grab(s, q).1.flush
    ensures var i := Grab(s, q).1.id; var id := s.ids[i];
            && i < |s.ids| && id.owner == q.vm && id.pd == q.pd && Usable(id.lastFlush, q) && !q.cpuUpdate
            && (Fresh(q.updates, id.flushed) <==> SameTimeline(q.updates, id.flushed))
            && (q.vm in s.reserved ==> Fresh(q.updates, id.flushed))
            && Grab(s, q).0.ids[i] == id
  {
  }

  /** After any grant the id belongs to the job, a requested flush leaves no last
      flush behind, and the recorded update covers the job's on the same condition. */
  lemma GrantRecords(s: State, q: Request)
    requires InRange(s) && Grab(s, q).1.Granted?
    ensures Grab(s, q).1.id < |s.ids| == |Grab(s, q).0.ids|
    ensures var (t, r) := Grab(s, q); var id := t.ids[r.id];
            && id.owner == q.vm && id.pd == q.pd
            && (r.flush ==> id.lastFlush.None?) && (!r.flush ==> Usable(id.lastFlush, q))
            && (Fresh(q.updates, id.flushed) <==> SameTimeline(q.updates, id.flushed))
            && (id.flushed == q.updates || id.flushed == s.ids[r.id].flushed)
            && (r.id in q.idle || Matches(s.ids[r.id], q))
            && (forall j :: 0 <= j < |s.ids| && j != r.id ==> t.ids[j] == s.ids[j])
            && (q.vm in s.reserved ==> r.id == s.reserved[q.vm] && t.lru == s.lru)
            && (q.vm !in s.reserved ==> r.id in s.lru && t.lru != [] && t.lru[|t.lru| - 1] == r.id)
  {
  }

  /** A refused grant hands out nothing; it may only spoil the page directory of the
      VM's own reserved id, so that the next grant flushes. */
  lemma RefusalKeeps(s: State, q: Request)
    requires InRange(s) && !Grab(s, q).1.Granted?
    ensures var t := Grab(s, q).0;
            && t.lru == s.lru && t.reserved == s.reserved && |t.ids| == |s.ids|
            && forall j :: 0 <= j < |s.ids| && t.ids[j] != s.ids[j] ==>
                 q.vm in s.reserved && j == s.reserved[q.vm] && t.ids[j] == s.ids[j].(pd := 0)
  {
  }

  // ---- Whole runs ----

  /** Every recorded update is on its owner's timeline. timeline gives the fence
      context of a VM's page-table updates. */
  ghost predicate OnTimeline(s: State, timeline: nat -> nat) {
    forall i :: 0 <= i < |s.ids| && s.ids[i].owner != 0 && s.ids[i].flushed.Some? ==>
      s.ids[i].flushed.value.context == timeline(s.ids[i].owner)
  }

  /** The caller's part: a real VM, whose updates are on its timeline. */
  predicate Proper(a: Action, timeline: nat -> nat) {
    a.DoGrab? ==> a.q.vm != 0 && (a.q.updates.Some? ==> a.q.updates.value.context == timeline(a.q.vm))
  }

  /** A VM takes its reserved id with no update of its own while the id still
      records an update of another timeline. */
  predicate TakesForeign(s: State, a: Action, timeline: nat -> nat)
    requires InRange(s)
  {
    && a.DoGrab? && a.q.vm in s.reserved && a.q.updates.None? && Grab(s, a.q).1.Granted?
    && s.ids[s.reserved[a.q.vm]].flushed.Some?
    && s.ids[s.reserved[a.q.vm]].flushed.value.context != timeline(a.q.vm)
  }

  lemma GrabTimelineIff(s: State, a: Action, timeline: nat -> nat)
    requires InRange(s) && OnTimeline(s, timeline) && Proper(a, timeline) && a.DoGrab?
    ensures OnTimeline(Grab(s, a.q).0, timeline) <==> !TakesForeign(s, a, timeline)
  {
    var q := a.q;
    var (t, r) := Grab(s, q);
    if r.Granted? {
      GrantRecords(s, q);
      assert OnTimeline(t, timeline) <==>
             (t.ids[r.id].flushed.Some? ==> t.ids[r.id].flushed.value.context == timeline(q.vm)) by {
        assert forall j :: 0 <= j < |s.ids| && j != r.id ==> t.ids[j] == s.ids[j];
      }
    } else {
      RefusalKeeps(s, q);
    }
  }

  /** A step keeps the timelines exactly when it is not such a take. */
  lemma StepTimelineIff(s: State, a: Action, timeline: nat -> nat)
    requires InRange(s) && OnTimeline(s, timeline) && Proper(a, timeline)
    ensures OnTimeline(Step(s, a), timeline) <==> !TakesForeign(s, a, timeline)
  {
    if a.DoGrab? {
      GrabTimelineIff(s, a, timeline);
    }
  }

  /** The state after a run; None if the list ever named an id that is not there. */
  function Run(s: State, acts: seq<Action>): Option<State>
    decreases |acts|
  {
    if acts == [] then Some(s)
    else if !InRange(s) then None
    else Run(Step(s, acts[0]), acts[1..])
  }

  predicate ProperRun(s: State, acts: seq<Action>, timeline: nat -> nat)
    decreases |acts|
  {
    acts == [] || !InRange(s)
    || (Proper(acts[0], timeline) && !TakesForeign(s, acts[0], timeline) && ProperRun(Step(s, acts[0]), acts[1..], timeline))
  }

  lemma {:induction false} RunKeeps(s: State, acts: seq<Action>, timeline: nat -> nat)
    requires Placed(s) && OnTimeline(s, timeline) && ProperRun(s, acts, timeline)
    ensures Run(s, acts).Some? && Placed(Run(s, acts).value) && OnTimeline(Run(s, acts).value, timeline)
    decreases |acts|
  {
    if acts != [] {
      StepKeepsPlaces(s, acts[0]);
      StepTimelineIff(s, acts[0], timeline);
      RunKeeps(Step(s, acts[0]), acts[1..], timeline);
    }
  }

  /** gsgpu_vmid_mgr_init on zeroed ids. */
  predicate Init(s: State) {
    && |s.ids| >= 2 && (forall i :: 0 <= i < |s.ids| ==> s.ids[i] == Id(0, 0, None, None))
    && |s.lru| == |s.ids| - 1 && (forall k :: 0 <= k < |s.lru| ==> s.lru[k] == k + 1)
    && s.reserved == map[] && s.reservedNum == 0
  }

  lemma InitPlaced(s: State)
    requires Init(s)
    ensures Placed(s)
  {
    forall i | 1 <= i < |s.ids|
      ensures i in s.lru
    {
      assert s.lru[i - 1] == i;
    }
  }

  /** After every run without a foreign take, a grant that asks for no flush finds an id
      that has recorded the job's last update as flushed. */
  lemma RunNeverStale(s: State, acts: seq<Action>, q: Request, timeline: nat -> nat)
    requires Init(s) && ProperRun(s, acts, timeline) && Proper(DoGrab(q), timeline)
    ensures Run(s, acts).Some? && Placed(Run(s, acts).value)
    ensures var t := Run(s, acts).value; var r := Grab(t, q).1;
            r.Granted? && !r.flush ==>
              var id := t.ids[r.id];
              id.owner == q.vm && id.pd == q.pd && Usable(id.lastFlush, q) && Fresh(q.updates, id.flushed)
  {
    InitPlaced(s);
    RunKeeps(s, acts, timeline);
    var t := Run(s, acts).value;
    if Grab(t, q).1.Granted? && !Grab(t, q).1.flush {
      NoFlushIff(t, q);
    }
  }

  // ---- The run that goes stale ----

  ghost predicate Reaches(s: State, t: State) {
    exists acts: seq<Action> :: Run(s, acts) == Some(t)
  }

  lemma {:induction false} RunOneMore(s: State, acts: seq<Action>, a: Action)
    requires Placed(s)
    ensures Run(s, acts).Some? && Placed(Run(s, acts).value)
    ensures Run(s, acts + [a]) == Some(Step(Run(s, acts).value, a))
    decreases |acts|
  {
    if acts == [] {
      assert (acts + [a])[1..] == [];
    } else {
      StepKeepsPlaces(s, acts[0]);
      assert (acts + [a])[1..] == acts[1..] + [a];
      RunOneMore(Step(s, acts[0]), acts[1..], a);
    }
  }

  lemma Go(s: State, t: State, a: Action, u: State)
    requires Placed(s) && Reaches(s, t) && InRange(t) && Step(t, a) == u
    ensures Reaches(s, u) && Placed(u)
  {
    var acts :| Run(s, acts) == Some(t);
    RunOneMore(s, acts, a);
    StepKeepsPlaces(t, a);
  }

  /** A request on ring 7 with every id idle and memory to spare. */
  function Ask(vm: nat, pd: nat, updates: Option<Fence>): Request {
    Request(vm, pd, false, updates, 7, {}, {1, 2, 3}, false, true, true)
  }

  /** A grab by a VM that has neither a reserved id nor a matching one takes the head of the list. */
  lemma HeadTaken(s: State, t: State, q: Request, u: State)
    requires Placed(s) && Reaches(s, t) && InRange(t) && q.vm !in t.reserved && t.lru != []
    requires !q.waiting && q.room && q.syncRoom && t.lru[0] in q.idle
    requires forall k :: 0 <= k < |t.lru| ==> !Matches(t.ids[t.lru[k]], q)
    requires u == State(t.ids[t.lru[0] := Id(q.vm, q.pd, None, q.updates)], ToTail(t.lru, 0), t.reserved, t.reservedNum)
    ensures Reaches(s, u) && Placed(u)
  {
    assert LastMatch(t, q, |t.lru|) == None;
    Go(s, t, DoGrab(q), u);
  }

  const Zero := Id(0, 0, None, None)
  const A1 := Id(1, 5, None, Some(Fence(10, 1)))
  const A2 := Id(1, 6, None, Some(Fence(10, 1)))
  const A3 := Id(1, 7, None, Some(Fence(10, 1)))

  lemma FirstTaken(s: State)
    requires Init(s) && |s.ids| == 4
    ensures Placed(s)
    ensures var t := State([Zero, A1, Zero, Zero], [2, 3, 1], map[], 0); Reaches(s, t) && Placed(t)
  {
    InitPlaced(s);
    assert s.ids == [Zero, Zero, Zero, Zero] && s.lru == [1, 2, 3];
    assert Run(s, []) == Some(s);
    HeadTaken(s, s, Ask(1, 5, A1.flushed), State([Zero, A1, Zero, Zero], [2, 3, 1], map[], 0));
  }

  /** VM 1 uses all three ids of the driver, with three page directories. */
  lemma AllTaken(s: State)
    requires Init(s) && |s.ids| == 4
    ensures Placed(s)
    ensures var t := State([Zero, A1, A2, A3], [1, 2, 3], map[], 0); Reaches(s, t) && Placed(t)
  {
    FirstTaken(s);
    var s2 := State([Zero, A1, A2, Zero], [3, 1, 2], map[], 0);
    HeadTaken(s, State([Zero, A1, Zero, Zero], [2, 3, 1], map[], 0), Ask(1, 6, A2.flushed), s2);
    HeadTaken(s, s2, Ask(1, 7, A3.flushed), State([Zero, A1, A2, A3], [1, 2, 3], map[], 0));
  }

  /** A VM takes its reserved id from another, with a flush and without updates. */
  lemma ReservedTaken(s: State, q: Request, i: nat)
    requires InRange(s) && s.lru != [] && s.lru[0] in q.idle && i in q.idle && q.vm in s.reserved && s.reserved[q.vm] == i
    requires !q.waiting && q.room && q.syncRoom && q.updates.None? && s.ids[i].owner != q.vm
    ensures Grab(s, q).0 == s.(ids := s.ids[i := Id(q.vm, q.pd, None, s.ids[i].flushed)])
  {
    assert FirstIdle(s.lru, q.idle, 0) == 0;
  }

  lemma ReservedThenFreed(s: State, s3: State, f: Fence)
    requires Placed(s) && Reaches(s, s3) && Placed(s3) && s3 == State([Zero, A1, A2, A3], [2, 3], map[2 := 1], 1)
    ensures var t := State([Zero, Id(2, 9, Some(f), A1.flushed), A2, A3], [1, 2, 3], map[], 0); Reaches(s, t) && Placed(t)
  {
    var s4 := State([Zero, Id(2, 9, None, A1.flushed), A2, A3], [2, 3], map[2 := 1], 1);
    ReservedTaken(s3, Ask(2, 9, None), 1);
    Go(s, s3, DoGrab(Ask(2, 9, None)), s4);
    var b := Id(2, 9, Some(f), A1.flushed);
    var s5 := State([Zero, b, A2, A3], [2, 3], map[2 := 1], 1);
    Go(s, s4, DoFlush(1, f), s5);
    var none: map<nat, nat> := map[2 := 1] - {2};
    assert none == map[];
    Go(s, s5, DoFree(2), State([Zero, b, A2, A3], [1, 2, 3], map[], 0));
  }

  /** A foreign take does go stale: VM 2 takes an id that VM 1 used, first reserved and
      without updates, then, the reservation given back, with an update the id has
      never flushed; no flush is asked for. */
  lemma ForeignTakeGoesStale(s: State)
    requires Init(s) && |s.ids| == 4
    ensures exists t: State, q: Request ::
              Reaches(s, t) && Placed(t) && Grab(t, q).1.Granted? && !Grab(t, q).1.flush
              && !Fresh(q.updates, t.ids[Grab(t, q).1.id].flushed)
  {
    AllTaken(s);
    var f := Fence(7, 1);
    var s3 := State([Zero, A1, A2, A3], [2, 3], map[2 := 1], 1);
    Go(s, State([Zero, A1, A2, A3], [1, 2, 3], map[], 0), DoAlloc(2), s3);
    ReservedThenFreed(s, s3, f);
    var t := State([Zero, Id(2, 9, Some(f), A1.flushed), A2, A3], [1, 2, 3], map[], 0);
    var q := Ask(2, 9, Some(Fence(20, 5)));
    assert LastMatch(t, q, 3) == Some(0);
    assert Grab(t, q).1 == Granted(1, false);
  }
}
