/** The life of one buffer object. Its list reference count guards the memory
    behind the lru, swap and delayed-destroy lists, while reservers, the last
    user, the delayed-delete worker, evictors and swappers act on it.
    One step is one section under the lru lock, one lock operation or one
    atomic operation. */
module BufferModel {
  import opened Wrappers
  import opened Seqs

  /** Who still has to drop the base list reference: the users; the actor that
      dropped the last use and is deciding, cleaning or dropping; nobody. */
  datatype Life = Used | Deciding(who: nat) | Cleaning(who: nat) | Dropping(who: nat) | Dropped

  /** inner is the buffer's own reservation lock when it uses a shared one (not own).
      life, todo, cleaned and released are history. bug records a failed BUG_ON. */
  datatype Bo = Bo(users: nat, listKref: int, lru: bool, swap: bool, ddestroy: bool,
                   resv: Option<nat>, own: bool, inner: bool, mm: bool, noEvict: bool,
                   life: Life, todo: Option<nat>, cleaned: nat, released: nat, bug: bool)

  datatype Pc =
    | Rest
    | Locked | Owned | Added
    | RelStart | RelTry | RelQueue | RelClean | RelUnlock | RelPut
    | DeadLock(all: bool) | DeadHave(all: bool)
    | CleanWait | CleanNow
    | Evicting | Swapping
    | Unlock | PutList

  /** ref: owns a use. outer: holds the shared reservation through another buffer. */
  datatype Actor = Actor(ref: bool, outer: bool, pc: Pc)

  datatype State = State(bo: Bo, actors: seq<Actor>)

  datatype Action =
    | Get(a: nat) | Put(a: nat)
    | Reserve(a: nat) | Unlink(a: nat) | Validate(a: nat, mm: bool, noEvict: bool)
    | Relink(a: nat, swappable: bool) | Unreserve(a: nat)
    | Join(a: nat) | Leave(a: nat) | MoveTail(a: nat, swappable: bool)
    | Individualize(a: nat, copied: bool) | TryRelease(a: nat, idle: bool, swappable: bool) | Queue(a: nat)
    | Clean(a: nat) | DropLock(a: nat) | Drop(a: nat)
    | PickDead(a: nat, all: bool, idle: bool) | LockDead(a: nat) | CleanDead(a: nat, idle: bool)
    | Waited(a: nat, idle: bool)
    | Evict(a: nat, allow: bool, idle: bool, noWait: bool) | Moved(a: nat, mm: bool, noEvict: bool)
    | Evicted(a: nat, swappable: bool)
    | Swapout(a: nat, allow: bool, idle: bool) | Swapped(a: nat)
    | PutLast(a: nat)

  /** kref_put with ttm_bo_ref_bug: reaching zero is a BUG. */
  function PutNotLast(b: Bo): Bo {
    b.(listKref := b.listKref - 1, bug := b.bug || b.listKref <= 1)
  }

  /** ttm_bo_add_to_lru. */
  function AddToLru(b: Bo, swappable: bool): Bo {
    if b.noEvict then b
    else
      b.(lru := true, swap := b.swap || swappable, listKref := b.listKref + (if swappable then 2 else 1),
         bug := b.bug || b.lru || (swappable && b.swap))
  }

  /** ttm_bo_del_from_lru. */
  function DelFromLru(b: Bo): Bo {
    var b1 := if b.swap then PutNotLast(b.(swap := false)) else b;
    if b1.lru then PutNotLast(b1.(lru := false)) else b1
  }

  /** kref_put with ttm_bo_release_list. */
  function PutRelease(b: Bo): Bo {
    if b.listKref == 1 then
      b.(listKref := 0, released := b.released + 1, bug := b.bug || b.users > 0 || b.mm || b.lru || b.ddestroy)
    else
      b.(listKref := b.listKref - 1, bug := b.bug || b.listKref < 1)
  }

  /** The delayed-destroy entry is taken off, and its actor must clean. */
  function TakeDead(b: Bo, a: nat): Bo {
    PutNotLast(DelFromLru(b).(ddestroy := false)).(todo := Some(a))
  }

  function Unlocked(b: Bo, x: Actor): Bo {
    if x.outer then b else b.(resv := None)
  }

  /** ttm_bo_cleanup_refs from its entry with the reservation held: the buffer and the next point. */
  function CleanupRefs(b: Bo, a: nat, x: Actor, idle: bool, noWait: bool): (Bo, Pc) {
    if !idle && !noWait then (Unlocked(b, x), CleanWait)
    else if !idle || !b.ddestroy then (Unlocked(b, x), PutList)
    else (TakeDead(b, a), CleanNow)
  }

  /** kref_get and list_add_tail on the delayed-destroy list. */
  function QueueDead(b: Bo, a: nat): Bo {
    b.(listKref := b.listKref + 1, ddestroy := true, inner := false, life := Dropping(a), bug := b.bug || b.ddestroy)
  }

  /** ttm_bo_cleanup_refs_or_queue under the lru lock. */
  function ReleaseOrQueue(b: Bo, a: nat, idle: bool, swappable: bool): (Bo, Pc) {
    if b.resv.Some? then (QueueDead(b, a), RelPut)
    else if idle then
      (DelFromLru(b).(resv := Some(a), inner := false, life := Cleaning(a), todo := Some(a)), RelClean)
    else if b.noEvict then (QueueDead(AddToLru(b.(noEvict := false), swappable), a), RelPut)
    else (QueueDead(b, a), RelPut)
  }

  /** ttm_bo_evict_swapout_allowable. */
  predicate Allowable(b: Bo, x: Actor, allow: bool) {
    if x.outer then allow || b.ddestroy else b.resv.None?
  }

  function To(b: Bo, x: Actor, pc: Pc): Option<(Bo, Actor)> {
    Some((b, x.(pc := pc)))
  }

  function ToPair(r: (Bo, Pc), x: Actor): Option<(Bo, Actor)> {
    Some((r.0, x.(pc := r.1)))
  }

  predicate Using(act: Action) {
    || act.Get? || act.Put? || act.Reserve? || act.Unlink? || act.Validate? || act.Relink? || act.Unreserve?
    || act.Join? || act.Leave? || act.MoveTail?
  }

  /** Users, reservers and holders of the shared reservation. */
  function ActUsing(b: Bo, x: Actor, act: Action): Option<(Bo, Actor)>
    requires Using(act)
  {
    match act
    case Get(_) =>
      if x.pc.Rest? && !x.ref && b.users > 0 then Some((b.(users := b.users + 1), x.(ref := true))) else None
    case Put(a) =>
      if x.pc.Rest? && x.ref && b.users > 0 then
        if b.users > 1 then Some((b.(users := b.users - 1), x.(ref := false)))
        else Some((b.(users := 0, life := Deciding(a)), x.(ref := false, pc := RelStart)))
      else None
    case Reserve(a) =>
      if x.pc.Rest? && x.ref && !x.outer && b.resv.None? then To(b.(resv := Some(a)), x, Locked) else None
    case Unlink(_) =>
      if x.pc.Locked? then To(DelFromLru(b), x, Owned) else None
    case Validate(_, mm, noEvict) =>
      if x.pc.Owned? || (x.pc.Rest? && x.outer && x.ref && (b.lru ==> !noEvict)) then
        To(b.(mm := mm, noEvict := noEvict), x, x.pc)
      else None
    case Relink(_, swappable) =>
      if x.pc.Owned? then To(AddToLru(b, swappable), x, Added) else None
    case Unreserve(_) =>
      if x.pc.Added? then To(b.(resv := None), x, Rest) else None
    case Join(a) =>
      if x.pc.Rest? && !x.outer && !b.own && b.resv.None? then Some((b.(resv := Some(a)), x.(outer := true))) else None
    case Leave(_) =>
      if x.pc.Rest? && x.outer then Some((b.(resv := None), x.(outer := false))) else None
    case MoveTail(_, swappable) =>
      if x.pc.Rest? && x.outer && x.ref then To(AddToLru(DelFromLru(b), swappable), x, Rest) else None
  }

  predicate Releasing(act: Action) {
    act.Individualize? || act.TryRelease? || act.Queue? || act.Clean? || act.DropLock? || act.Drop? || act.PutLast?
  }

  /** ttm_bo_release, and the ends shared with the shrinkers. */
  function ActReleasing(b: Bo, x: Actor, act: Action): Option<(Bo, Actor)>
    requires Releasing(act)
  {
    match act
    case Individualize(_, copied) =>
      if !x.pc.RelStart? then None
      else if b.own then To(b, x, RelTry)
      else if copied then To(b.(bug := b.bug || b.inner, inner := true), x, RelTry)
      else To(b.(bug := b.bug || b.inner, inner := false), x, RelQueue)
    case TryRelease(a, idle, swappable) =>
      if x.pc.RelTry? then ToPair(ReleaseOrQueue(b, a, idle, swappable), x) else None
    case Queue(a) =>
      if x.pc.RelQueue? then To(QueueDead(b, a), x, RelPut) else None
    case Clean(_) =>
      if x.pc.RelClean? || x.pc.CleanNow? then
        To(b.(mm := false, cleaned := b.cleaned + 1, todo := None), x, if x.pc.RelClean? then RelUnlock else Unlock)
      else None
    case DropLock(a) =>
      if x.pc.RelUnlock? then To(b.(resv := None, life := Dropping(a)), x, RelPut)
      else if x.pc.Unlock? then To(Unlocked(b, x), x, PutList)
      else None
    case Drop(_) =>
      if x.pc.RelPut? then To(PutRelease(b.(life := Dropped)), x, Rest) else None
    case PutLast(_) =>
      if x.pc.PutList? then To(PutRelease(b), x, Rest) else None
  }

  /** The worker takes a list reference of the first dead buffer, then locks it, or tries to. */
  function PickFirst(b: Bo, a: nat, x: Actor, all: bool, idle: bool): (Bo, Pc) {
    if all || !b.own then (b.(listKref := b.listKref + 1), DeadLock(all))
    else if b.resv.None? then CleanupRefs(b.(listKref := b.listKref + 1, resv := Some(a)), a, x, idle, true)
    else (b.(listKref := b.listKref + 1), PutList)
  }

  predicate Deleting(act: Action) {
    act.PickDead? || act.LockDead? || act.CleanDead? || act.Waited?
  }

  /** ttm_bo_delayed_delete, and the wait inside ttm_bo_cleanup_refs. */
  function ActDeleting(b: Bo, x: Actor, act: Action): Option<(Bo, Actor)>
    requires Deleting(act)
  {
    match act
    case PickDead(a, all, idle) =>
      if x.pc.Rest? && !x.outer && b.ddestroy then ToPair(PickFirst(b, a, x, all, idle), x) else None
    case LockDead(a) =>
      if x.pc.DeadLock? && b.resv.None? then To(b.(resv := Some(a)), x, DeadHave(x.pc.all)) else None
    case CleanDead(a, idle) =>
      if x.pc.DeadHave? then ToPair(CleanupRefs(b, a, x, idle, !x.pc.all), x) else None
    case Waited(a, idle) =>
      if !x.pc.CleanWait? then None
      else if !idle || (!x.outer && b.resv.Some?) || !b.ddestroy then To(b, x, PutList)
      else To(TakeDead(if x.outer then b else b.(resv := Some(a)), a), x, CleanNow)
  }

  /** A shrinker takes a list reference, then cleans a dead buffer or takes a live one off the lists. */
  function PickLive(b: Bo, a: nat, x: Actor, idle: bool, noWait: bool, pc: Pc): Option<(Bo, Actor)> {
    var b1 := b.(listKref := b.listKref + 1, resv := Some(a));
    if b.ddestroy then ToPair(CleanupRefs(b1, a, x, idle, noWait), x) else To(DelFromLru(b1), x, pc)
  }

  predicate Shrinking(act: Action) {
    act.Evict? || act.Moved? || act.Evicted? || act.Swapout? || act.Swapped?
  }

  /** ttm_mem_evict_first and ttm_bo_swapout. */
  function ActShrinking(b: Bo, x: Actor, act: Action): Option<(Bo, Actor)>
    requires Shrinking(act)
  {
    match act
    case Evict(a, allow, idle, noWait) =>
      if x.pc.Rest? && b.lru && Allowable(b, x, allow) then PickLive(b, a, x, idle, noWait, Evicting) else None
    case Moved(_, mm, noEvict) =>
      if x.pc.Evicting? then To(b.(mm := mm, noEvict := noEvict), x, Evicting)
      else if x.pc.Swapping? then To(b.(mm := b.mm && mm), x, Swapping)
      else None
    case Evicted(_, swappable) =>
      if x.pc.Evicting? then To(AddToLru(b, swappable), x, Unlock) else None
    case Swapout(a, allow, idle) =>
      if x.pc.Rest? && b.swap && Allowable(b, x, allow) then PickLive(b, a, x, idle, false, Swapping) else None
    case Swapped(_) =>
      if x.pc.Swapping? then To(b, x, Unlock) else None
  }

  /** One step of the actor whose record is x; None when it is not enabled. */
  function Act(b: Bo, x: Actor, act: Action): Option<(Bo, Actor)> {
    if Using(act) then ActUsing(b, x, act)
    else if Releasing(act) then ActReleasing(b, x, act)
    else if Deleting(act) then ActDeleting(b, x, act)
    else ActShrinking(b, x, act)
  }

  function Step(s: State, act: Action): Option<State> {
    if act.a >= |s.actors| then None
    else match Act(s.bo, s.actors[act.a], act)
      case None => None
      case Some((b, x)) => Some(State(b, s.actors[act.a := x]))
  }

  function Run(s: State, acts: seq<Action>): Option<State>
    decreases |acts|
  {
    if acts == [] then Some(s)
    else match Step(s, acts[0])
      case None => None
      case Some(t) => Run(t, acts[1..])
  }

  /** A buffer that was just created, validated or not: one use, and the base list reference. */
  function Created(a: nat, own: bool, mm: bool, noEvict: bool): Bo {
    Bo(1, 1, false, false, false, Some(a), own, false, mm, noEvict, Used, None, 0, 0, false)
  }

  /** ttm_bo_init_reserved by actor 0. With a reservation of its own the buffer is reserved and on no
      list; with a shared one, which the creator holds already, it goes onto the lists unless its
      validation failed or it may not be evicted. */
  predicate Init(s: State) {
    && |s.actors| > 0
    && (forall i :: 0 < i < |s.actors| ==> s.actors[i] == Actor(false, false, Rest))
    && var b := Created(0, s.bo.own, s.bo.mm, s.bo.noEvict);
       if s.bo.own then s.actors[0] == Actor(true, false, Owned) && s.bo == b
       else s.actors[0] == Actor(true, true, Rest) && (s.bo == b || s.bo == AddToLru(b, true) || s.bo == AddToLru(b, false))
  }

  // ---- The invariant ----

  /** The actor holds the buffer's reservation. */
  predicate Holds(x: Actor) {
    || x.outer
    || x.pc.Locked? || x.pc.Owned? || x.pc.Added? || x.pc.RelClean? || x.pc.RelUnlock?
    || x.pc.DeadHave? || x.pc.CleanNow? || x.pc.Evicting? || x.pc.Swapping? || x.pc.Unlock?
  }

  /** The actor owns one list reference of its own. */
  predicate Transient(x: Actor) {
    || x.pc.DeadLock? || x.pc.DeadHave? || x.pc.CleanWait? || x.pc.CleanNow?
    || x.pc.Evicting? || x.pc.Swapping? || x.pc.Unlock? || x.pc.PutList?
  }

  predicate OffLists(pc: Pc) {
    pc.Owned? || pc.RelClean? || pc.CleanNow? || pc.Evicting? || pc.Swapping?
  }

  function CountTransient(xs: seq<Actor>): nat {
    if xs == [] then 0 else CountTransient(xs[..|xs| - 1]) + One(Transient(xs[|xs| - 1]))
  }

  function CountRefs(xs: seq<Actor>): nat {
    if xs == [] then 0 else CountRefs(xs[..|xs| - 1]) + One(xs[|xs| - 1].ref)
  }

  /** Some path will still clean the buffer: a user, the deciding releaser or the delayed list. */
  predicate Live(b: Bo) {
    b.life.Used? || b.life.Deciding? || b.ddestroy
  }

  ghost predicate Counts(s: State) {
    && s.bo.users == CountRefs(s.actors)
    && s.bo.listKref == One(!s.bo.life.Dropped?) + One(s.bo.lru) + One(s.bo.swap) + One(s.bo.ddestroy)
                        + CountTransient(s.actors)
  }

  predicate BoOk(b: Bo, n: nat) {
    && !b.bug
    && (b.swap ==> b.lru) && (b.noEvict ==> !b.lru) && (b.lru ==> Live(b))
    && (b.users > 0 <==> b.life.Used?)
    && (b.ddestroy ==> b.life.Dropping? || b.life.Dropped?)
    && (b.inner ==> b.life.Deciding? && !b.own)
    && (b.mm ==> b.cleaned == 0)
    && (b.todo.Some? ==> b.todo.value < n)
    && (b.life.Deciding? || b.life.Cleaning? || b.life.Dropping? ==> b.life.who < n)
    && (if Live(b) then b.cleaned == 0 && b.todo.None? else b.cleaned + One(b.todo.Some?) == 1)
    && b.released == One(b.listKref == 0)
  }

  predicate ActorOk(b: Bo, i: nat, x: Actor) {
    && (Holds(x) <==> b.resv == Some(i))
    && (OffLists(x.pc) ==> !b.lru && !b.swap)
    && (x.pc.RelStart? || x.pc.RelTry? || x.pc.RelQueue? <==> b.life == Deciding(i))
    && (x.pc.RelClean? || x.pc.RelUnlock? <==> b.life == Cleaning(i))
    && (x.pc.RelPut? <==> b.life == Dropping(i))
    && (x.pc.RelClean? || x.pc.CleanNow? <==> b.todo == Some(i))
    && (x.pc.Locked? || x.pc.Owned? || x.pc.Added? ==> x.ref && !x.outer)
    && (x.pc.Evicting? || x.pc.Swapping? ==> Live(b))
    && (x.pc.RelTry? ==> b.inner == !b.own) && (x.pc.RelStart? || x.pc.RelQueue? ==> !b.inner)
    && (x.pc.DeadLock? || x.pc.DeadHave? || x.pc.RelClean? || x.pc.RelUnlock? ==> !x.outer)
    && (x.ref ==> b.users > 0) && (x.outer ==> !b.own)
  }

  ghost predicate Inv(s: State) {
    && Counts(s)
    && BoOk(s.bo, |s.actors|)
    && forall i: nat :: i < |s.actors| ==> ActorOk(s.bo, i, s.actors[i])
  }
}
