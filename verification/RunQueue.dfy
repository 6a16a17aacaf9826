/** Run queues: round-robin selection of a ready entity, and the rule that an entity
    is linked only on its own run queue. */
module RunQueue {
  import opened Wrappers
  import opened Seqs

  /** The list of one run queue and the entity picked last. */
  datatype Queue = Queue(list: seq<nat>, current: Option<nat>)

  predicate QueueOk(q: Queue) {
    Distinct(q.list) && (q.current.Some? ==> q.current.value in q.list)
  }

  function IndexOf(s: seq<nat>, e: nat): (i: nat)
    requires e in s
    ensures i < |s| && s[i] == e
  {
    if s[0] == e then 0 else 1 + IndexOf(s[1..], e)
  }

  function Without(s: seq<nat>, e: nat): seq<nat> {
    if e in s then s[..IndexOf(s, e)] + s[IndexOf(s, e) + 1..] else s
  }

  // ---- Selection ----

  /** Where the scan starts: behind the entity picked last. */
  function Start(q: Queue): (i: nat)
    requires QueueOk(q)
    ensures i <= |q.list|
  {
    if q.current.Some? then IndexOf(q.list, q.current.value) + 1 else 0
  }

  /** The entity at distance d behind the start, around the ring. */
  function Around(q: Queue, d: nat): (e: nat)
    requires QueueOk(q) && d < |q.list|
    ensures e in q.list
  {
    var i := Start(q) + d;
    q.list[if i < |q.list| then i else i - |q.list|]
  }

  /** The nearest ready entity from distance d on. */
  function Pick(q: Queue, ready: set<nat>, d: nat): Option<nat>
    requires QueueOk(q) && d <= |q.list|
    decreases |q.list| - d
  {
    if d == |q.list| then None
    else if Around(q, d) in ready then Some(Around(q, d))
    else Pick(q, ready, d + 1)
  }

  function Selected(q: Queue, ready: set<nat>): Option<nat>
    requires QueueOk(q)
  {
    Pick(q, ready, 0)
  }

  function AfterSelect(q: Queue, ready: set<nat>): (r: Queue)
    requires QueueOk(q)
  {
    match Selected(q, ready)
    case None => q
    case Some(e) => q.(current := Some(e))
  }

  /** How far behind the start an entity stands. */
  function Distance(q: Queue, e: nat): (d: nat)
    requires QueueOk(q) && e in q.list
    ensures d < |q.list| && Around(q, d) == e
  {
    var i := IndexOf(q.list, e);
    if i >= Start(q) then i - Start(q) else i + |q.list| - Start(q)
  }

  lemma {:induction false} PickFinds(q: Queue, ready: set<nat>, d: nat, e: nat)
    requires QueueOk(q) && e in q.list && e in ready && d <= Distance(q, e)
    ensures Pick(q, ready, d).Some?
    ensures var x := Pick(q, ready, d).value;
            x in q.list && x in ready && d <= Distance(q, x) <= Distance(q, e)
    decreases |q.list| - d
  {
    AroundDistance(q, d);
    if Around(q, d) !in ready {
      PickFinds(q, ready, d + 1, e);
    }
  }

  lemma {:induction false} IndexUnique(s: seq<nat>, i: nat)
    requires Distinct(s) && i < |s|
    ensures IndexOf(s, s[i]) == i
  {
    if i > 0 {
      assert s[1..][i - 1] == s[i];
      IndexUnique(s[1..], i - 1);
    }
  }

  lemma AroundDistance(q: Queue, d: nat)
    requires QueueOk(q) && d < |q.list|
    ensures Distance(q, Around(q, d)) == d
  {
    var i := Start(q) + d;
    IndexUnique(q.list, if i < |q.list| then i else i - |q.list|);
  }

  /** Entities that are not ready are passed over. */
  lemma {:induction false} PickSkip(q: Queue, ready: set<nat>, c: nat, d: nat)
    requires QueueOk(q) && c <= d <= |q.list|
    requires forall k :: c <= k < d ==> Around(q, k) !in ready
    ensures Pick(q, ready, c) == Pick(q, ready, d)
    decreases d - c
  {
    if c < d {
      PickSkip(q, ready, c + 1, d);
    }
  }

  /** The entity at index i is the choice when it is ready and nothing between the start and it is. */
  lemma PicksAt(q: Queue, ready: set<nat>, i: nat)
    requires QueueOk(q) && i < |q.list| && q.list[i] in ready
    requires i >= Start(q) ==> forall k :: Start(q) <= k < i ==> q.list[k] !in ready
    requires i < Start(q) ==> forall k :: 0 <= k < i || Start(q) <= k < |q.list| ==> q.list[k] !in ready
    ensures Selected(q, ready) == Some(q.list[i])
  {
    var d := if i >= Start(q) then i - Start(q) else |q.list| - Start(q) + i;
    PickSkip(q, ready, 0, d);
    assert Around(q, d) == q.list[i];
  }

  lemma {:induction false} PickMember(q: Queue, ready: set<nat>, d: nat)
    requires QueueOk(q) && d <= |q.list| && Pick(q, ready, d).Some?
    ensures Pick(q, ready, d).value in q.list && Pick(q, ready, d).value in ready
    decreases |q.list| - d
  {
    if Around(q, d) !in ready {
      PickMember(q, ready, d + 1);
    }
  }

  /** An entity is returned exactly when some member is ready; it is a ready member, and
      no ready member stands nearer behind the one picked last. */
  lemma SelectedIff(q: Queue, ready: set<nat>)
    requires QueueOk(q)
    ensures Selected(q, ready).Some? <==> exists e :: e in q.list && e in ready
    ensures Selected(q, ready).Some? ==>
              var x := Selected(q, ready).value;
              && x in q.list && x in ready
              && forall e :: e in q.list && e in ready ==> Distance(q, x) <= Distance(q, e)
    ensures QueueOk(AfterSelect(q, ready))
  {
    forall e | e in q.list && e in ready
      ensures Selected(q, ready).Some? && Selected(q, ready).value in q.list
      ensures Distance(q, Selected(q, ready).value) <= Distance(q, e)
    {
      PickFinds(q, ready, 0, e);
    }
    if Selected(q, ready).Some? {
      PickMember(q, ready, 0);
    }
  }

  /** After x is picked, every other member that stood behind x is nearer by as much. */
  lemma PickedNearer(q: Queue, x: nat, e: nat)
    requires QueueOk(q) && x in q.list && e in q.list && e != x && Distance(q, x) <= Distance(q, e)
    ensures Distance(q.(current := Some(x)), e) == Distance(q, e) - Distance(q, x) - 1
  {
    assert Around(q, Distance(q, x)) == x && Around(q, Distance(q, e)) == e;
    IndexUnique(q.list, IndexOf(q.list, e));
  }

  /** Successive selections; readies says who is ready at each. */
  function Picks(q: Queue, readies: seq<set<nat>>): seq<Option<nat>>
    requires QueueOk(q)
    decreases |readies|
  {
    if readies == [] then []
    else
      SelectedIff(q, readies[0]);
      [Selected(q, readies[0])] + Picks(AfterSelect(q, readies[0]), readies[1..])
  }

  /** Fair: a member that stays ready is picked within as many selections as stand before it. */
  lemma {:induction false} PickedWithinDistance(q: Queue, readies: seq<set<nat>>, e: nat)
    requires QueueOk(q) && e in q.list && (forall i :: 0 <= i < |readies| ==> e in readies[i])
    requires |readies| > Distance(q, e)
    ensures exists i :: 0 <= i <= Distance(q, e) && i < |Picks(q, readies)| && Picks(q, readies)[i] == Some(e)
    decreases |readies|
  {
    var ready := readies[0];
    SelectedIff(q, ready);
    PickFinds(q, ready, 0, e);
    var x := Selected(q, ready).value;
    var rest := Picks(AfterSelect(q, ready), readies[1..]);
    assert Picks(q, readies) == [Some(x)] + rest;
    if x == e {
      assert Picks(q, readies)[0] == Some(e);
    } else {
      PickedNearer(q, x, e);
      var q' := AfterSelect(q, ready);
      PickedWithinDistance(q', readies[1..], e);
      var i :| 0 <= i <= Distance(q', e) && i < |rest| && rest[i] == Some(e);
      assert Picks(q, readies)[i + 1] == Some(e);
    }
  }

  /** With unchanged membership, n selections pick every entity that stays ready. */
  lemma PickedWithinN(q: Queue, readies: seq<set<nat>>, e: nat)
    requires QueueOk(q) && e in q.list && (forall i :: 0 <= i < |readies| ==> e in readies[i])
    requires |readies| >= |q.list|
    ensures exists i :: 0 <= i < |q.list| && i < |Picks(q, readies)| && Picks(q, readies)[i] == Some(e)
  {
    PickedWithinDistance(q, readies, e);
    var i :| 0 <= i <= Distance(q, e) && i < |Picks(q, readies)| && Picks(q, readies)[i] == Some(e);
  }

  // ---- One queue, in place ----

  class Rq {
    var entities: seq<nat>
    var current: Option<nat>

    ghost function View(): Queue
      reads this
    {
      Queue(entities, current)
    }

    constructor ()
      ensures View() == Queue([], None)
    {
      entities, current := [], None;
    }

    /** drm_sched_rq_add_entity. linked says whether the entity is on a list already. */
    method Add(e: nat, linked: bool)
      requires QueueOk(View()) && (!linked ==> e !in entities)
      modifies this
      ensures View() == (if linked then old(View()) else old(View()).(list := old(entities) + [e])) && QueueOk(View())
    {
      if linked {
        return;
      }
      entities := entities + [e];
    }

    /** drm_sched_rq_remove_entity; an entity that is on a list is on this one. */
    method Remove(e: nat, linked: bool)
      requires QueueOk(View()) && (linked ==> e in entities)
      modifies this
      ensures View() == (if linked then Removed(old(View()), e) else old(View())) && QueueOk(View())
    {
      if !linked {
        return;
      }
      RemovedOk(View(), e);
      entities := Without(entities, e);
      if current == Some(e) {
        current := None;
      }
    }

    /** drm_sched_rq_select_entity: on from the current entity, then from the head up to it. */
    method Select(ready: set<nat>) returns (r: Option<nat>)
      requires QueueOk(View())
      modifies this`current
      ensures r == Selected(old(View()), ready) && View() == AfterSelect(old(View()), ready) && QueueOk(View())
    {
      ghost var q := View();
      SelectedIff(q, ready);
      var stop := |entities|;
      if current.Some? {
        stop := Find(current.value);
        stop := stop + 1;
        var i := Scan(stop, |entities|, ready);
        if i < |entities| {
          PicksAt(q, ready, i);
          current := Some(entities[i]);
          return Some(entities[i]);
        }
      }
      var j := Scan(0, stop, ready);
      if j < stop {
        PicksAt(q, ready, j);
        current := Some(entities[j]);
        return Some(entities[j]);
      }
      r := None;
    }

    /** One of the two loops: the first ready entity at or after lo and before hi. */
    method Scan(lo: nat, hi: nat, ready: set<nat>) returns (i: nat)
      requires lo <= hi <= |entities|
      ensures lo <= i <= hi && (i < hi ==> entities[i] in ready)
      ensures forall k :: lo <= k < i ==> entities[k] !in ready
    {
      i := lo;
      while i < hi
        invariant lo <= i <= hi && forall k :: lo <= k < i ==> entities[k] !in ready
      {
        if entities[i] in ready {
          return;
        }
        i := i + 1;
      }
    }

    /** The position that the list pointer of an entity stands for. */
    method Find(e: nat) returns (i: nat)
      requires Distinct(entities) && e in entities
      ensures i == IndexOf(entities, e)
    {
      i := 0;
      while entities[i] != e
        invariant 0 <= i < |entities| && e in entities[i..]
        decreases |entities| - i
      {
        i := i + 1;
      }
      IndexUnique(entities, i);
    }
  }

  function Removed(q: Queue, e: nat): Queue {
    Queue(Without(q.list, e), if q.current == Some(e) then None else q.current)
  }

  lemma WithoutIs(s: seq<nat>, e: nat)
    requires Distinct(s) && e in s
    ensures Distinct(Without(s, e)) && forall x :: x in Without(s, e) <==> x in s && x != e
  {
    var i := IndexOf(s, e);
    RemoveDistinct(s, i);
    forall x
      ensures x in Without(s, e) <==> x in s && x != e
    {
      RemoveMembers(s, i, x);
    }
  }

  lemma RemovedOk(q: Queue, e: nat)
    requires QueueOk(q) && e in q.list
    ensures QueueOk(Removed(q, e)) && forall x :: x in Removed(q, e).list <==> x in q.list && x != e
  {
    WithoutIs(q.list, e);
  }

  // ---- All queues of all schedulers ----

  /** A run queue is named by its scheduler and its priority. */
  datatype Name = Name(sched: nat, priority: nat)

  datatype Entity = Entity(rq: Name, linked: bool, choices: seq<Name>)

  datatype System = System(queues: map<Name, Queue>, entities: seq<Entity>)

  /** Linked exactly on its own queue. */
  predicate EntityOk(s: System, e: nat)
    requires e < |s.entities|
  {
    && KnownNames(s, s.entities[e])
    && (forall n :: n in s.queues ==> (e in s.queues[n].list <==> s.entities[e].linked && n == s.entities[e].rq))
  }

  ghost predicate SystemOk(s: System) {
    && (forall n :: n in s.queues ==> QueueOk(s.queues[n]) && forall x :: x in s.queues[n].list ==> x < |s.entities|)
    && (forall e: nat :: e < |s.entities| ==> EntityOk(s, e))
  }

  /** drm_sched_rq_add_entity on the entity's own queue. */
  function Link(s: System, e: nat): System
    requires e < |s.entities| && s.entities[e].rq in s.queues
  {
    var x := s.entities[e];
    if x.linked then s
    else
      var q := s.queues[x.rq];
      System(s.queues[x.rq := q.(list := q.list + [e])], s.entities[e := x.(linked := true)])
  }

  function Unlink(s: System, e: nat): System
    requires e < |s.entities| && s.entities[e].rq in s.queues
  {
    var x := s.entities[e];
    if !x.linked then s
    else System(s.queues[x.rq := Removed(s.queues[x.rq], e)], s.entities[e := x.(linked := false)])
  }

  function AtPriority(n: Name, p: nat): Name {
    n.(priority := p)
  }

  /** drm_sched_entity_set_priority. */
  function SetPriority(s: System, e: nat, p: nat): System
    requires e < |s.entities| && s.entities[e].rq in s.queues && AtPriority(s.entities[e].rq, p) in s.queues
  {
    var t := Unlink(s, e);
    var x := t.entities[e];
    var choices := seq(|x.choices|, i requires 0 <= i < |x.choices| => AtPriority(x.choices[i], p));
    Link(t.(entities := t.entities[e := x.(rq := AtPriority(x.rq, p), choices := choices)]), e)
  }

  /** The end of drm_sched_entity_select_rq, for a queue other than its own. */
  function MoveTo(s: System, e: nat, n: Name): System
    requires e < |s.entities| && s.entities[e].rq in s.queues
  {
    var t := Unlink(s, e);
    t.(entities := t.entities[e := t.entities[e].(rq := n)])
  }

  datatype Action =
    | DoLink(e: nat) | DoUnlink(e: nat) | DoPriority(e: nat, p: nat) | DoMove(e: nat, k: nat)
    | DoSelect(n: Name, ready: set<nat>)

  /** Every scheduler has a queue for each priority that is asked for. */
  predicate Enabled(s: System, a: Action) {
    match a
    case DoSelect(n, _) => n in s.queues
    case DoPriority(e, p) =>
      && e < |s.entities| && AtPriority(s.entities[e].rq, p) in s.queues
      && forall i :: 0 <= i < |s.entities[e].choices| ==> AtPriority(s.entities[e].choices[i], p) in s.queues
    case DoMove(e, k) => e < |s.entities| && k < |s.entities[e].choices|
    case _ => a.e < |s.entities|
  }

  function Step(s: System, a: Action): System
    requires SystemOk(s) && Enabled(s, a)
  {
    match a
    case DoSelect(n, ready) => s.(queues := s.queues[n := AfterSelect(s.queues[n], ready)])
    case DoLink(e) => assert EntityOk(s, e); Link(s, e)
    case DoUnlink(e) => assert EntityOk(s, e); Unlink(s, e)
    case DoPriority(e, p) => assert EntityOk(s, e); SetPriority(s, e, p)
    case DoMove(e, k) => assert EntityOk(s, e); MoveTo(s, e, s.entities[e].choices[k])
  }

  lemma LinkOk(s: System, e: nat)
    requires SystemOk(s) && e < |s.entities| && s.entities[e].rq in s.queues
    ensures SystemOk(Link(s, e)) && Link(s, e).queues.Keys == s.queues.Keys
  {
    var t := Link(s, e);
    assert EntityOk(s, e);
    forall i: nat | i < |t.entities|
      ensures EntityOk(t, i)
    {
      assert EntityOk(s, i);
    }
  }

  lemma UnlinkOk(s: System, e: nat)
    requires SystemOk(s) && e < |s.entities| && s.entities[e].rq in s.queues
    ensures SystemOk(Unlink(s, e)) && Unlink(s, e).queues.Keys == s.queues.Keys
    ensures !Unlink(s, e).entities[e].linked
  {
    var t := Unlink(s, e);
    assert EntityOk(s, e);
    if s.entities[e].linked {
      RemovedOk(s.queues[s.entities[e].rq], e);
    }
    forall i: nat | i < |t.entities|
      ensures EntityOk(t, i)
    {
      assert EntityOk(s, i);
    }
  }

  /** An entity that is on no list may be sent to any queue. */
  lemma RehomeOk(s: System, e: nat, x: Entity)
    requires SystemOk(s) && e < |s.entities| && !s.entities[e].linked && !x.linked && x.rq in s.queues
    requires forall i :: 0 <= i < |x.choices| ==> x.choices[i] in s.queues
    ensures SystemOk(s.(entities := s.entities[e := x]))
  {
    var t := s.(entities := s.entities[e := x]);
    assert EntityOk(s, e);
    forall i: nat | i < |t.entities|
      ensures EntityOk(t, i)
    {
      assert EntityOk(s, i);
    }
  }

  lemma SetPriorityOk(s: System, e: nat, p: nat)
    requires SystemOk(s) && Enabled(s, DoPriority(e, p)) && s.entities[e].rq in s.queues
    ensures SystemOk(SetPriority(s, e, p)) && SetPriority(s, e, p).queues.Keys == s.queues.Keys
  {
    UnlinkOk(s, e);
    var t := Unlink(s, e);
    var x := t.entities[e];
    var choices := seq(|x.choices|, i requires 0 <= i < |x.choices| => AtPriority(x.choices[i], p));
    var y := x.(rq := AtPriority(x.rq, p), choices := choices);
    RehomeOk(t, e, y);
    LinkOk(t.(entities := t.entities[e := y]), e);
  }

  lemma SelectOk(s: System, n: Name, ready: set<nat>)
    requires SystemOk(s) && n in s.queues
    ensures SystemOk(s.(queues := s.queues[n := AfterSelect(s.queues[n], ready)]))
  {
    var t := s.(queues := s.queues[n := AfterSelect(s.queues[n], ready)]);
    SelectedIff(s.queues[n], ready);
    forall i: nat | i < |t.entities|
      ensures EntityOk(t, i)
    {
      assert EntityOk(s, i);
    }
  }

  /** Adding, removing, changing priority, moving and selecting all keep an entity only on
      its own queue, once, and the current entity of a queue one of its members. */
  lemma StepOk(s: System, a: Action)
    requires SystemOk(s) && Enabled(s, a)
    ensures SystemOk(Step(s, a)) && Step(s, a).queues.Keys == s.queues.Keys
  {
    match a
    case DoSelect(n, ready) => SelectOk(s, n, ready);
    case DoLink(e) =>
      assert EntityOk(s, e);
      LinkOk(s, e);
    case DoUnlink(e) =>
      assert EntityOk(s, e);
      UnlinkOk(s, e);
    case DoPriority(e, p) =>
      assert EntityOk(s, e);
      SetPriorityOk(s, e, p);
    case DoMove(e, k) =>
      assert EntityOk(s, e);
      UnlinkOk(s, e);
      var t := Unlink(s, e);
      RehomeOk(t, e, t.entities[e].(rq := s.entities[e].choices[k]));
  }

  predicate KnownNames(s: System, x: Entity) {
    x.rq in s.queues && forall i :: 0 <= i < |x.choices| ==> x.choices[i] in s.queues
  }

  /** Empty run queues, and entities that are on none of them. */
  predicate Fresh(s: System) {
    && (forall n :: n in s.queues ==> s.queues[n] == Queue([], None))
    && (forall e :: 0 <= e < |s.entities| ==> !s.entities[e].linked && KnownNames(s, s.entities[e]))
  }

  lemma FreshOk(s: System)
    requires Fresh(s)
    ensures SystemOk(s)
  {
    forall e: nat | e < |s.entities|
      ensures EntityOk(s, e)
    {
    }
  }

  /** The states of a run, from one where nothing is linked yet. */
  ghost predicate IsRun(ss: seq<System>, acts: seq<Action>) {
    && |ss| == |acts| + 1 && Fresh(ss[0])
    && forall i :: 0 <= i < |acts| && SystemOk(ss[i]) ==> Enabled(ss[i], acts[i]) && ss[i + 1] == Step(ss[i], acts[i])
  }

  lemma {:induction false} RunOk(ss: seq<System>, acts: seq<Action>, k: nat)
    requires IsRun(ss, acts) && k < |ss|
    ensures SystemOk(ss[k])
    decreases k
  {
    if k == 0 {
      FreshOk(ss[0]);
    } else {
      RunOk(ss, acts, k - 1);
      StepOk(ss[k - 1], acts[k - 1]);
    }
  }

  // ---- Choosing a scheduler and a priority ----

  const UintMax: nat := 0xFFFF_FFFF

  /** drm_sched_entity_get_free_sched on the job counts: the first least loaded one; none
      exactly when every count is the largest 32-bit number. */
  method GetFreeSched(loads: seq<nat>) returns (r: Option<nat>)
    requires forall i :: 0 <= i < |loads| ==> loads[i] <= UintMax
    ensures r.None? <==> forall i :: 0 <= i < |loads| ==> loads[i] == UintMax
    ensures r.Some? ==> r.value < |loads|
                        && (forall i :: 0 <= i < |loads| ==> loads[r.value] <= loads[i])
                        && (forall i :: 0 <= i < r.value ==> loads[r.value] < loads[i])
  {
    r := None;
    var min := UintMax;
    var i := 0;
    while i < |loads|
      invariant 0 <= i <= |loads| && min <= UintMax
      invariant r.None? ==> min == UintMax && forall j :: 0 <= j < i ==> loads[j] == UintMax
      invariant r.Some? ==> r.value < i && loads[r.value] == min < UintMax
      invariant forall j :: 0 <= j < i ==> min <= loads[j]
      invariant r.Some? ==> forall j :: 0 <= j < r.value ==> min < loads[j]
    {
      if loads[i] < min {
        min := loads[i];
        r := Some(i);
      }
      i := i + 1;
    }
  }

  /** drm_sched_select_entity: none while the hardware queue is full; else the highest priority
      that has a ready entity, and that queue's own choice. */
  method SelectEntity(rqs: array<Rq>, ready: set<nat>, hwRqCount: int, limit: int) returns (r: Option<nat>, p: int)
    requires forall i, j :: 0 <= i < j < rqs.Length ==> rqs[i] != rqs[j]
    requires forall i :: 0 <= i < rqs.Length ==> QueueOk(rqs[i].View())
    modifies rqs[..]
    ensures -1 <= p < rqs.Length && (r.None? <==> p == -1)
    ensures hwRqCount >= limit ==> p == -1
    ensures hwRqCount < limit ==> forall i :: p < i < rqs.Length ==> old(Selected(rqs[i].View(), ready)) == None
    ensures forall i :: 0 <= i < rqs.Length ==> QueueOk(rqs[i].View())
    ensures p >= 0 ==> r == old(Selected(rqs[p].View(), ready))
    ensures forall i :: 0 <= i < rqs.Length ==>
              rqs[i].View() == if i == p then old(AfterSelect(rqs[i].View(), ready)) else old(rqs[i].View())
  {
    if hwRqCount >= limit {
      return None, -1;
    }
    r := None;
    p := rqs.Length - 1;
    while p >= 0
      invariant -1 <= p < rqs.Length && r.None?
      invariant forall i :: p < i < rqs.Length ==> old(Selected(rqs[i].View(), ready)) == None
      invariant forall i :: 0 <= i < rqs.Length ==> rqs[i].View() == old(rqs[i].View())
    {
      r := rqs[p].Select(ready);
      if r.Some? {
        return;
      }
      p := p - 1;
    }
  }
}
