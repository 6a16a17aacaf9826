/** Every run of the buffer life cycle keeps the reference count exact, so the
    BUG checks cannot fire and the buffer is released once, clean and unlinked. */
module BufferLife {
  import opened Wrappers
  import opened Seqs
  import opened BufferModel

  // ---- Counting actors ----

  lemma {:induction false} TransientUpdate(xs: seq<Actor>, a: nat, x: Actor)
    requires a < |xs|
    ensures CountTransient(xs[a := x]) == CountTransient(xs) - One(Transient(xs[a])) + One(Transient(x))
  {
    var n := |xs| - 1;
    if a == n {
      assert xs[a := x][..n] == xs[..n];
    } else {
      assert xs[a := x][..n] == xs[..n][a := x];
      TransientUpdate(xs[..n], a, x);
    }
  }

  lemma {:induction false} RefsUpdate(xs: seq<Actor>, a: nat, x: Actor)
    requires a < |xs|
    ensures CountRefs(xs[a := x]) == CountRefs(xs) - One(xs[a].ref) + One(x.ref)
  {
    var n := |xs| - 1;
    if a == n {
      assert xs[a := x][..n] == xs[..n];
    } else {
      assert xs[a := x][..n] == xs[..n][a := x];
      RefsUpdate(xs[..n], a, x);
    }
  }

  /** Removing actor a from the counts leaves room for every other one. */
  lemma CountsOthers(xs: seq<Actor>, a: nat, i: nat)
    requires a < |xs| && i < |xs| && i != a
    ensures CountTransient(xs) >= One(Transient(xs[a])) + One(Transient(xs[i]))
    ensures CountRefs(xs) >= One(xs[a].ref) + One(xs[i].ref)
  {
    var none := Actor(false, false, Rest);
    TransientUpdate(xs, a, none);
    TransientUpdate(xs[a := none], i, none);
    RefsUpdate(xs, a, none);
    RefsUpdate(xs[a := none], i, none);
  }

  lemma CountsSelf(xs: seq<Actor>, a: nat)
    requires a < |xs|
    ensures CountTransient(xs) >= One(Transient(xs[a])) && CountRefs(xs) >= One(xs[a].ref)
  {
    TransientUpdate(xs, a, Actor(false, false, Rest));
    RefsUpdate(xs, a, Actor(false, false, Rest));
  }

  /** Nobody is transient or refers: the counts are zero. */
  lemma {:induction false} CountsNone(xs: seq<Actor>)
    requires forall i :: 0 <= i < |xs| ==> !Transient(xs[i]) && !xs[i].ref
    ensures CountTransient(xs) == 0 && CountRefs(xs) == 0
  {
    if xs != [] {
      CountsNone(xs[..|xs| - 1]);
    }
  }

  // ---- One step ----

  /** What the list references held by nobody in particular amount to. */
  function Listed(b: Bo): int {
    One(!b.life.Dropped?) + One(b.lru) + One(b.swap) + One(b.ddestroy)
  }

  /** The acting actor's view: t counts the other actors' list references. */
  ghost predicate Local(b: Bo, n: nat, a: nat, x: Actor, t: nat) {
    && a < n && BoOk(b, n) && ActorOk(b, a, x)
    && b.listKref == Listed(b) + t + One(Transient(x))
    && (b.todo.Some? && b.todo.value != a ==> b.life == Cleaning(b.todo.value) || t >= 1)
  }

  /** The reservation is free or the actor's own. */
  predicate Mine(r: Option<nat>, a: nat) {
    r.None? || r == Some(a)
  }

  predicate NotOthers(l: Life, a: nat) {
    l.Used? || l.Dropped? || l.who == a
  }

  /** What actor a may do to the buffer without disturbing anyone else. */
  predicate Guarantee(b: Bo, b': Bo, a: nat, x: Actor) {
    && (b'.resv == b.resv || (Mine(b.resv, a) && Mine(b'.resv, a)))
    && ((b'.lru && !b.lru) || (b'.swap && !b.swap) || (Live(b) && !Live(b')) ==> Mine(b.resv, a))
    && (b'.life == b.life || (NotOthers(b.life, a) && NotOthers(b'.life, a)))
    && (b'.todo == b.todo || (Mine(b.todo, a) && Mine(b'.todo, a)))
    && (b'.inner == b.inner || b.life == Deciding(a))
    && b'.own == b.own
    && (b'.users > 0 || (b.users == 0 || (b.users == 1 && x.ref)))
  }

  ghost predicate Good(b: Bo, n: nat, a: nat, x: Actor, t: nat, r: (Bo, Actor)) {
    && Local(r.0, n, a, r.1, t)
    && Guarantee(b, r.0, a, x)
    && r.0.users - b.users == One(r.1.ref) - One(x.ref)
  }

  lemma UsersKeep(b: Bo, n: nat, a: nat, x: Actor, t: nat, act: Action)
    requires Local(b, n, a, x, t) && act.a == a && ActUsing.requires(b, x, act) && ActUsing(b, x, act).Some?
    requires act.Get? || act.Put?
    ensures Good(b, n, a, x, t, ActUsing(b, x, act).value)
  {
  }

  lemma ReserveKeeps(b: Bo, n: nat, a: nat, x: Actor, t: nat, act: Action)
    requires Local(b, n, a, x, t) && act.a == a && (act.Reserve? || act.Unreserve?) && ActUsing(b, x, act).Some?
    ensures Good(b, n, a, x, t, ActUsing(b, x, act).value)
  {
  }

  lemma JoinKeeps(b: Bo, n: nat, a: nat, x: Actor, t: nat, act: Action)
    requires Local(b, n, a, x, t) && act.a == a && (act.Join? || act.Leave?) && ActUsing(b, x, act).Some?
    ensures Good(b, n, a, x, t, ActUsing(b, x, act).value)
  {
  }

  lemma UnlinkKeeps(b: Bo, n: nat, a: nat, x: Actor, t: nat, act: Action)
    requires Local(b, n, a, x, t) && act.a == a && (act.Unlink? || act.Validate?) && ActUsing(b, x, act).Some?
    ensures Good(b, n, a, x, t, ActUsing(b, x, act).value)
  {
  }

  lemma RelinkKeeps(b: Bo, n: nat, a: nat, x: Actor, t: nat, act: Action)
    requires Local(b, n, a, x, t) && act.a == a && (act.Relink?) && ActUsing(b, x, act).Some?
    ensures Good(b, n, a, x, t, ActUsing(b, x, act).value)
  {
  }

  lemma MoveTailKeeps(b: Bo, n: nat, a: nat, x: Actor, t: nat, act: Action)
    requires Local(b, n, a, x, t) && act.a == a && (act.MoveTail?) && ActUsing(b, x, act).Some?
    ensures Good(b, n, a, x, t, ActUsing(b, x, act).value)
  {
  }

  lemma UsingKeeps(b: Bo, n: nat, a: nat, x: Actor, t: nat, act: Action)
    requires Local(b, n, a, x, t) && act.a == a && Using(act) && ActUsing(b, x, act).Some?
    ensures Good(b, n, a, x, t, ActUsing(b, x, act).value)
  {
    if act.Get? || act.Put? {
      UsersKeep(b, n, a, x, t, act);
    } else if act.Reserve? || act.Unreserve? {
      ReserveKeeps(b, n, a, x, t, act);
    } else if act.Join? || act.Leave? {
      JoinKeeps(b, n, a, x, t, act);
    } else if act.Unlink? || act.Validate? {
      UnlinkKeeps(b, n, a, x, t, act);
    } else if act.Relink? {
      RelinkKeeps(b, n, a, x, t, act);
    } else {
      MoveTailKeeps(b, n, a, x, t, act);
    }
  }

  lemma QueueKeeps(b: Bo, n: nat, a: nat, x: Actor, t: nat)
    requires Local(b, n, a, x, t) && (x.pc.RelTry? || x.pc.RelQueue?)
    ensures Good(b, n, a, x, t, (QueueDead(b, a), x.(pc := RelPut)))
  {
  }

  lemma TryReleaseKeeps(b: Bo, n: nat, a: nat, x: Actor, t: nat, idle: bool, swappable: bool)
    requires Local(b, n, a, x, t) && x.pc.RelTry?
    ensures Good(b, n, a, x, t, ToPair(ReleaseOrQueue(b, a, idle, swappable), x).value)
  {
    if b.resv.None? && !idle && b.noEvict {
      var b1 := AddToLru(b.(noEvict := false), swappable);
      assert Local(b1, n, a, x, t);
      QueueKeeps(b1, n, a, x, t);
    } else if b.resv.Some? || !idle {
      QueueKeeps(b, n, a, x, t);
    }
  }

  /** Dropping a list reference that may be the last. */
  lemma PutKeeps(b: Bo, n: nat, a: nat, x: Actor, t: nat)
    requires Local(b, n, a, x, t) && x.pc.PutList?
    ensures Good(b, n, a, x, t, (PutRelease(b), x.(pc := Rest)))
  {
    if b.listKref == 1 {
      LastPutClean(b, n, a, x, t);
    }
    RestKeeps(PutRelease(b), a, x);
  }

  /** When the last list reference goes, the buffer is clean and on no list. */
  lemma LastPutClean(b: Bo, n: nat, a: nat, x: Actor, t: nat)
    requires Local(b, n, a, x, t) && x.pc.PutList? && b.listKref == 1
    ensures b.users == 0 && !b.mm && !b.lru && !b.swap && !b.ddestroy && b.todo.None? && b.life.Dropped?
  {
  }

  lemma RestKeeps(b: Bo, a: nat, x: Actor)
    requires ActorOk(b, a, x) && x.pc.PutList?
    ensures ActorOk(b, a, x.(pc := Rest))
  {
  }

  /** The base reference is dropped. */
  lemma DropKeeps(b: Bo, n: nat, a: nat, x: Actor, t: nat)
    requires Local(b, n, a, x, t) && x.pc.RelPut?
    ensures Good(b, n, a, x, t, (PutRelease(b.(life := Dropped)), x.(pc := Rest)))
  {
  }

  lemma IndividualizeKeeps(b: Bo, n: nat, a: nat, x: Actor, t: nat, act: Action)
    requires Local(b, n, a, x, t) && act.a == a && (act.Individualize?) && ActReleasing(b, x, act).Some?
    ensures Good(b, n, a, x, t, ActReleasing(b, x, act).value)
  {
  }

  lemma CleanKeeps(b: Bo, n: nat, a: nat, x: Actor, t: nat, act: Action)
    requires Local(b, n, a, x, t) && act.a == a && (act.Clean?) && ActReleasing(b, x, act).Some?
    ensures Good(b, n, a, x, t, ActReleasing(b, x, act).value)
  {
  }

  lemma DropLockKeeps(b: Bo, n: nat, a: nat, x: Actor, t: nat, act: Action)
    requires Local(b, n, a, x, t) && act.a == a && act.DropLock? && ActReleasing(b, x, act).Some?
    ensures Good(b, n, a, x, t, ActReleasing(b, x, act).value)
  {
    if x.pc.RelUnlock? {
      LastUnlockKeeps(b, n, a, x, t);
    } else {
      UnlockKeeps(b, n, a, x, t);
    }
  }

  lemma LastUnlockKeeps(b: Bo, n: nat, a: nat, x: Actor, t: nat)
    requires Local(b, n, a, x, t) && x.pc.RelUnlock?
    ensures Good(b, n, a, x, t, (b.(resv := None, life := Dropping(a)), x.(pc := RelPut)))
  {
  }

  lemma UnlockKeeps(b: Bo, n: nat, a: nat, x: Actor, t: nat)
    requires Local(b, n, a, x, t) && x.pc.Unlock?
    ensures Good(b, n, a, x, t, (Unlocked(b, x), x.(pc := PutList)))
  {
  }

  lemma ReleasingKeeps(b: Bo, n: nat, a: nat, x: Actor, t: nat, act: Action)
    requires Local(b, n, a, x, t) && act.a == a && Releasing(act) && ActReleasing(b, x, act).Some?
    ensures Good(b, n, a, x, t, ActReleasing(b, x, act).value)
  {
    match act
    case TryRelease(_, idle, swappable) => TryReleaseKeeps(b, n, a, x, t, idle, swappable);
    case Queue(_) => QueueKeeps(b, n, a, x, t);
    case Drop(_) => DropKeeps(b, n, a, x, t);
    case PutLast(_) => PutKeeps(b, n, a, x, t);
    case DropLock(_) => DropLockKeeps(b, n, a, x, t, act);
    case Individualize(_, _) => IndividualizeKeeps(b, n, a, x, t, act);
    case Clean(_) => CleanKeeps(b, n, a, x, t, act);
  }

  /** Taking the dead buffer off its lists, with its reservation and a list reference. */
  lemma TakeDeadKeeps(b: Bo, n: nat, a: nat, x: Actor, t: nat)
    requires Local(b, n, a, x, t) && x.pc.Unlock? && b.ddestroy
    ensures Good(b, n, a, x, t, (TakeDead(b, a), x.(pc := CleanNow)))
  {
  }

  lemma CleanupRefsKeeps(b: Bo, n: nat, a: nat, x: Actor, t: nat, idle: bool, noWait: bool)
    requires Local(b, n, a, x, t) && x.pc.Unlock?
    ensures Good(b, n, a, x, t, ToPair(CleanupRefs(b, a, x, idle, noWait), x).value)
  {
    if b.ddestroy && idle {
      TakeDeadKeeps(b, n, a, x, t);
    }
  }

  /** An idle actor takes a list reference and the free, or its own, reservation. */
  lemma Grabs(b: Bo, n: nat, a: nat, x: Actor, t: nat)
    requires Local(b, n, a, x, t) && x.pc.Rest? && (b.lru || b.ddestroy) && (x.outer || b.resv.None?)
    ensures var b1 := b.(listKref := b.listKref + 1, resv := Some(a));
            Local(b1, n, a, x.(pc := Unlock), t) && Guarantee(b, b1, a, x)
  {
  }

  /** A guarantee followed by a good step is a good step. */
  lemma Compose(b: Bo, b1: Bo, n: nat, a: nat, x: Actor, x1: Actor, t: nat, r: (Bo, Actor))
    requires Guarantee(b, b1, a, x) && b1.users == b.users && x1.ref == x.ref && Good(b1, n, a, x1, t, r)
    requires b1.life == b.life && b1.inner == b.inner && b1.own == b.own
    ensures Good(b, n, a, x, t, r)
  {
  }

  lemma WaitedKeeps(b: Bo, n: nat, a: nat, x: Actor, t: nat, act: Action)
    requires Local(b, n, a, x, t) && act.a == a && act.Waited? && ActDeleting(b, x, act).Some?
    ensures Good(b, n, a, x, t, ActDeleting(b, x, act).value)
  {
    if act.idle && (x.outer || b.resv.None?) && b.ddestroy {
      WaitedTakes(b, n, a, x, t);
    } else {
      GaveUpKeeps(b, n, a, x, t);
    }
  }

  /** The wait is over and the buffer still there: it is taken to be cleaned. */
  lemma WaitedTakes(b: Bo, n: nat, a: nat, x: Actor, t: nat)
    requires Local(b, n, a, x, t) && x.pc.CleanWait? && (x.outer || b.resv.None?) && b.ddestroy
    ensures var b1 := if x.outer then b else b.(resv := Some(a)); Good(b, n, a, x, t, (TakeDead(b1, a), x.(pc := CleanNow)))
  {
    var b1 := if x.outer then b else b.(resv := Some(a));
    var x1 := x.(pc := Unlock);
    assert Local(b1, n, a, x1, t);
    TakeDeadKeeps(b1, n, a, x1, t);
    Compose(b, b1, n, a, x, x1, t, (TakeDead(b1, a), x1.(pc := CleanNow)));
  }

  lemma GaveUpKeeps(b: Bo, n: nat, a: nat, x: Actor, t: nat)
    requires Local(b, n, a, x, t) && x.pc.CleanWait?
    ensures Good(b, n, a, x, t, (b, x.(pc := PutList)))
  {
  }

  lemma PickFirstKeeps(b: Bo, n: nat, a: nat, x: Actor, t: nat, all: bool, idle: bool)
    requires Local(b, n, a, x, t) && x.pc.Rest? && !x.outer && b.ddestroy
    ensures Good(b, n, a, x, t, ToPair(PickFirst(b, a, x, all, idle), x).value)
  {
    var b1 := b.(listKref := b.listKref + 1);
    if all || !b.own {
      assert PickFirst(b, a, x, all, idle) == (b1, DeadLock(all));
      ReferKeeps(b, n, a, x, t, DeadLock(all));
    } else if b.resv.Some? {
      assert PickFirst(b, a, x, all, idle) == (b1, PutList);
      ReferKeeps(b, n, a, x, t, PutList);
    } else {
      assert PickFirst(b, a, x, all, idle) == CleanupRefs(b1.(resv := Some(a)), a, x, idle, true);
      PickDyingKeeps(b, n, a, x, t, idle, true);
    }
  }

  lemma PickDeadKeeps(b: Bo, n: nat, a: nat, x: Actor, t: nat, act: Action)
    requires Local(b, n, a, x, t) && act.a == a && act.PickDead? && ActDeleting(b, x, act).Some?
    ensures Good(b, n, a, x, t, ActDeleting(b, x, act).value)
  {
    PickFirstKeeps(b, n, a, x, t, act.all, act.idle);
  }

  /** An idle actor takes a list reference of a dead buffer. */
  lemma ReferKeeps(b: Bo, n: nat, a: nat, x: Actor, t: nat, pc: Pc)
    requires Local(b, n, a, x, t) && x.pc.Rest? && !x.outer && b.ddestroy && (pc.DeadLock? || pc.PutList?)
    ensures Good(b, n, a, x, t, (b.(listKref := b.listKref + 1), x.(pc := pc)))
  {
  }

  lemma CleanDeadKeeps(b: Bo, n: nat, a: nat, x: Actor, t: nat, act: Action)
    requires Local(b, n, a, x, t) && act.a == a && act.CleanDead? && ActDeleting(b, x, act).Some?
    ensures Good(b, n, a, x, t, ActDeleting(b, x, act).value)
  {
    var x1 := x.(pc := Unlock);
    assert Local(b, n, a, x1, t);
    CleanupRefsKeeps(b, n, a, x1, t, act.idle, !x.pc.all);
    Compose(b, b, n, a, x, x1, t, ActDeleting(b, x, act).value);
  }

  lemma LockDeadKeeps(b: Bo, n: nat, a: nat, x: Actor, t: nat, act: Action)
    requires Local(b, n, a, x, t) && act.a == a && act.LockDead? && ActDeleting(b, x, act).Some?
    ensures Good(b, n, a, x, t, ActDeleting(b, x, act).value)
  {
  }

  lemma DeletingKeeps(b: Bo, n: nat, a: nat, x: Actor, t: nat, act: Action)
    requires Local(b, n, a, x, t) && act.a == a && Deleting(act) && ActDeleting(b, x, act).Some?
    ensures Good(b, n, a, x, t, ActDeleting(b, x, act).value)
  {
    match act
    case PickDead(_, _, _) => PickDeadKeeps(b, n, a, x, t, act);
    case CleanDead(_, _) => CleanDeadKeeps(b, n, a, x, t, act);
    case Waited(_, _) => WaitedKeeps(b, n, a, x, t, act);
    case LockDead(_) => LockDeadKeeps(b, n, a, x, t, act);
  }

  /** A live buffer is taken off its lists to be evicted or swapped out. */
  lemma TakeLiveKeeps(b: Bo, n: nat, a: nat, x: Actor, t: nat, pc: Pc)
    requires Local(b, n, a, x, t) && x.pc.Unlock? && b.lru && (pc.Evicting? || pc.Swapping?)
    ensures Good(b, n, a, x, t, (DelFromLru(b), x.(pc := pc)))
  {
  }

  lemma PickLiveKeeps(b: Bo, n: nat, a: nat, x: Actor, t: nat, idle: bool, noWait: bool, pc: Pc)
    requires Local(b, n, a, x, t) && x.pc.Rest? && b.lru && (x.outer || b.resv.None?)
    requires pc.Evicting? || pc.Swapping?
    ensures PickLive(b, a, x, idle, noWait, pc).Some?
    ensures Good(b, n, a, x, t, PickLive(b, a, x, idle, noWait, pc).value)
  {
    var b1 := b.(listKref := b.listKref + 1, resv := Some(a));
    if b.ddestroy {
      PickDyingKeeps(b, n, a, x, t, idle, noWait);
      assert PickLive(b, a, x, idle, noWait, pc) == ToPair(CleanupRefs(b1, a, x, idle, noWait), x);
    } else {
      PickUsedKeeps(b, n, a, x, t, pc);
      assert PickLive(b, a, x, idle, noWait, pc) == To(DelFromLru(b1), x, pc);
    }
  }

  /** Grabbing a buffer in use and taking it off the lists. */
  lemma PickUsedKeeps(b: Bo, n: nat, a: nat, x: Actor, t: nat, pc: Pc)
    requires Local(b, n, a, x, t) && x.pc.Rest? && b.lru && (x.outer || b.resv.None?)
    requires pc.Evicting? || pc.Swapping?
    ensures var b1 := b.(listKref := b.listKref + 1, resv := Some(a));
            Good(b, n, a, x, t, To(DelFromLru(b1), x, pc).value)
  {
    var b1 := b.(listKref := b.listKref + 1, resv := Some(a));
    var x1 := x.(pc := Unlock);
    Grabs(b, n, a, x, t);
    TakeLiveKeeps(b1, n, a, x1, t, pc);
    Compose(b, b1, n, a, x, x1, t, (DelFromLru(b1), x1.(pc := pc)));
  }

  /** Grabbing a buffer on the delayed list and entering cleanup_refs. */
  lemma PickDyingKeeps(b: Bo, n: nat, a: nat, x: Actor, t: nat, idle: bool, noWait: bool)
    requires Local(b, n, a, x, t) && x.pc.Rest? && b.ddestroy && (x.outer || b.resv.None?)
    ensures var b1 := b.(listKref := b.listKref + 1, resv := Some(a));
            Good(b, n, a, x, t, ToPair(CleanupRefs(b1, a, x, idle, noWait), x).value)
  {
    var b1 := b.(listKref := b.listKref + 1, resv := Some(a));
    var x1 := x.(pc := Unlock);
    Grabs(b, n, a, x, t);
    CleanupRefsKeeps(b1, n, a, x1, t, idle, noWait);
    SameCleanup(b1, a, x, idle, noWait);
    Compose(b, b1, n, a, x, x1, t, ToPair(CleanupRefs(b1, a, x1, idle, noWait), x1).value);
  }

  /** Where the actor stood before does not matter to cleanup_refs. */
  lemma SameCleanup(b: Bo, a: nat, x: Actor, idle: bool, noWait: bool)
    ensures var x1 := x.(pc := Unlock);
            ToPair(CleanupRefs(b, a, x1, idle, noWait), x1) == ToPair(CleanupRefs(b, a, x, idle, noWait), x)
  {
  }

  lemma MovedKeeps(b: Bo, n: nat, a: nat, x: Actor, t: nat, act: Action)
    requires Local(b, n, a, x, t) && act.a == a && (act.Moved?) && ActShrinking(b, x, act).Some?
    ensures Good(b, n, a, x, t, ActShrinking(b, x, act).value)
  {
  }

  lemma ShrunkKeeps(b: Bo, n: nat, a: nat, x: Actor, t: nat, act: Action)
    requires Local(b, n, a, x, t) && act.a == a && (act.Evicted? || act.Swapped?) && ActShrinking(b, x, act).Some?
    ensures Good(b, n, a, x, t, ActShrinking(b, x, act).value)
  {
  }

  lemma EvictKeeps(b: Bo, n: nat, a: nat, x: Actor, t: nat, act: Action)
    requires Local(b, n, a, x, t) && act.a == a && act.Evict? && ActShrinking(b, x, act).Some?
    ensures Good(b, n, a, x, t, ActShrinking(b, x, act).value)
  {
    PickLiveKeeps(b, n, a, x, t, act.idle, act.noWait, Evicting);
  }

  lemma SwapoutKeeps(b: Bo, n: nat, a: nat, x: Actor, t: nat, act: Action)
    requires Local(b, n, a, x, t) && act.a == a && act.Swapout? && ActShrinking(b, x, act).Some?
    ensures Good(b, n, a, x, t, ActShrinking(b, x, act).value)
  {
    PickLiveKeeps(b, n, a, x, t, act.idle, false, Swapping);
  }

  lemma ShrinkingKeeps(b: Bo, n: nat, a: nat, x: Actor, t: nat, act: Action)
    requires Local(b, n, a, x, t) && act.a == a && Shrinking(act) && ActShrinking(b, x, act).Some?
    ensures Good(b, n, a, x, t, ActShrinking(b, x, act).value)
  {
    match act
    case Evict(_, _, _, _) => EvictKeeps(b, n, a, x, t, act);
    case Swapout(_, _, _) => SwapoutKeeps(b, n, a, x, t, act);
    case Moved(_, _, _) => MovedKeeps(b, n, a, x, t, act);
    case _ => ShrunkKeeps(b, n, a, x, t, act);
  }

  /** An actor that does not move keeps its part of the invariant. */
  lemma BystanderKeeps(b: Bo, b': Bo, a: nat, x: Actor, i: nat, y: Actor)
    requires i != a && ActorOk(b, i, y) && Guarantee(b, b', a, x)
    requires x.ref && y.ref ==> b.users >= 2
    ensures ActorOk(b', i, y)
  {
  }

  lemma ActKeeps(b: Bo, n: nat, a: nat, x: Actor, t: nat, act: Action)
    requires Local(b, n, a, x, t) && act.a == a && Act(b, x, act).Some?
    ensures Good(b, n, a, x, t, Act(b, x, act).value)
  {
    if Using(act) {
      UsingKeeps(b, n, a, x, t, act);
    } else if Releasing(act) {
      ReleasingKeeps(b, n, a, x, t, act);
    } else if Deleting(act) {
      DeletingKeeps(b, n, a, x, t, act);
    } else {
      ShrinkingKeeps(b, n, a, x, t, act);
    }
  }

  lemma LocalHolds(s: State, a: nat)
    requires Inv(s) && a < |s.actors|
    ensures CountTransient(s.actors) >= One(Transient(s.actors[a]))
    ensures Local(s.bo, |s.actors|, a, s.actors[a], CountTransient(s.actors) - One(Transient(s.actors[a])))
  {
    CountsSelf(s.actors, a);
    assert ActorOk(s.bo, a, s.actors[a]);
    var todo := s.bo.todo;
    if todo.Some? && todo.value != a {
      CountsOthers(s.actors, a, todo.value);
      assert ActorOk(s.bo, todo.value, s.actors[todo.value]);
    }
  }

  lemma BystandersKeep(s: State, b': Bo, a: nat, ys: seq<Actor>)
    requires Inv(s) && a < |s.actors| == |ys| && Guarantee(s.bo, b', a, s.actors[a])
    requires ActorOk(b', a, ys[a]) && forall i :: 0 <= i < |ys| && i != a ==> ys[i] == s.actors[i]
    ensures forall i: nat :: i < |ys| ==> ActorOk(b', i, ys[i])
  {
    forall i: nat | i < |ys|
      ensures ActorOk(b', i, ys[i])
    {
      if i != a {
        CountsOthers(s.actors, a, i);
        BystanderKeeps(s.bo, b', a, s.actors[a], i, ys[i]);
      }
    }
  }

  lemma StepKeeps(s: State, act: Action)
    requires Inv(s) && Step(s, act).Some?
    ensures Inv(Step(s, act).value) && |Step(s, act).value.actors| == |s.actors|
  {
    var a, n, xs := act.a, |s.actors|, s.actors;
    var x := xs[a];
    var (b', x') := Act(s.bo, x, act).value;
    var t := CountTransient(xs) - One(Transient(x));
    LocalHolds(s, a);
    ActKeeps(s.bo, n, a, x, t, act);
    TransientUpdate(xs, a, x');
    RefsUpdate(xs, a, x');
    assert ActorOk(b', a, x');
    BystandersKeep(s, b', a, xs[a := x']);
  }

  // ---- Whole runs ----

  lemma InitCounts(s: State)
    requires Init(s)
    ensures Counts(s)
  {
    var none := Actor(false, false, Rest);
    CountsNone(s.actors[0 := none]);
    TransientUpdate(s.actors, 0, none);
    RefsUpdate(s.actors, 0, none);
  }

  lemma InitHolds(s: State)
    requires Init(s)
    ensures Inv(s)
  {
    InitCounts(s);
    forall i: nat | i < |s.actors|
      ensures ActorOk(s.bo, i, s.actors[i])
    {
    }
  }

  lemma {:induction false} RunKeeps(s: State, acts: seq<Action>)
    requires Inv(s) && Run(s, acts).Some?
    ensures Inv(Run(s, acts).value) && |Run(s, acts).value.actors| == |s.actors|
    decreases |acts|
  {
    if acts != [] {
      StepKeeps(s, acts[0]);
      RunKeeps(Step(s, acts[0]).value, acts[1..]);
    }
  }

  /** In every run no BUG check fires, the list count is exact, and the buffer is
      released at most once: when the count has reached zero, with its memory
      cleaned exactly once, no memory node, no user and on no list. */
  lemma RunSafe(s: State, acts: seq<Action>)
    requires Init(s) && Run(s, acts).Some?
    ensures var t := Run(s, acts).value; var b := t.bo;
            && !b.bug && b.released <= 1
            && b.listKref == One(!b.life.Dropped?) + One(b.lru) + One(b.swap) + One(b.ddestroy)
                             + CountTransient(t.actors)
            && b.users == CountRefs(t.actors)
            && (b.noEvict ==> !b.lru) && b.cleaned <= 1
            && (b.released == 1 <==> b.listKref == 0)
            && (b.released == 1 ==> b.cleaned == 1 && b.users == 0 && !b.mm && !b.lru && !b.swap && !b.ddestroy)
  {
    InitHolds(s);
    RunKeeps(s, acts);
    var t := Run(s, acts).value;
    var b := t.bo;
    if b.todo.Some? {
      CountsSelf(t.actors, b.todo.value);
      assert ActorOk(b, b.todo.value, t.actors[b.todo.value]);
      assert b.listKref > 0;
    }
  }

  /** Nothing is leaked: once every actor is at rest and no use is left, the
      buffer has been released unless the delayed worker can still find it. */
  lemma AtRestReleased(s: State, acts: seq<Action>)
    requires Init(s) && Run(s, acts).Some?
    requires var t := Run(s, acts).value;
             forall i :: 0 <= i < |t.actors| ==> t.actors[i].pc.Rest? && !t.actors[i].ref
    ensures var b := Run(s, acts).value.bo; b.released == 1 <==> !b.ddestroy
  {
    InitHolds(s);
    RunKeeps(s, acts);
    var t := Run(s, acts).value;
    CountsNone(t.actors);
    var b := t.bo;
    assert b.life.Deciding? || b.life.Cleaning? || b.life.Dropping? ==>
        ActorOk(b, b.life.who, t.actors[b.life.who]);
  }
}
