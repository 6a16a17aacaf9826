/** The recursive read lock of the MMU notifier. Invalidations share one reader of
    the rw-semaphore: only the 0 -> 1 and 1 -> 0 steps of the recursion counter
    touch it. One step is one mutex, atomic or semaphore operation. */
module MnLock {
  import opened Wrappers
  import opened Seqs

  /** MustDown: counted 0 -> 1, still to take the semaphore. MustUnlock: still to drop
      the mutex. Inside: between a start that took the lock and its end. MustUp:
      counted 1 -> 0, still to drop the semaphore. Writing: a submitter with the write side. */
  datatype Pc = Out | Locked | MustDown | MustUnlock | Inside | MustUp | Writing

  datatype State = State(mutex: Option<nat>, recursion: int, readers: int, writers: int, actors: seq<Pc>)

  datatype Action =
    | MutexLock(a: nat) | Count(a: nat) | DownRead(a: nat) | MutexUnlock(a: nat)
    | Uncount(a: nat) | UpRead(a: nat)
    | DownWrite(a: nat) | UpWrite(a: nat)

  /** A failed mutex_trylock changes nothing and is no step. Uncount is the end
      callback, or a start that may not block and found a range to wait for. */
  function Step(s: State, act: Action): Option<State> {
    if act.a >= |s.actors| then None
    else
      var a := act.a;
      var pc := s.actors[a];
      match act
      case MutexLock(_) =>
        if pc.Out? && s.mutex.None? then Some(s.(mutex := Some(a), actors := s.actors[a := Locked])) else None
      case Count(_) =>
        if pc.Locked? then
          var n := s.recursion + 1;
          Some(s.(recursion := n, actors := s.actors[a := if n == 1 then MustDown else MustUnlock]))
        else None
      case DownRead(_) =>
        if pc.MustDown? && s.writers == 0 then
          Some(s.(readers := s.readers + 1, actors := s.actors[a := MustUnlock]))
        else None
      case MutexUnlock(_) =>
        if pc.MustUnlock? then Some(s.(mutex := None, actors := s.actors[a := Inside])) else None
      case Uncount(_) =>
        if pc.Inside? then
          var n := s.recursion - 1;
          Some(s.(recursion := n, actors := s.actors[a := if n == 0 then MustUp else Out]))
        else None
      case UpRead(_) =>
        if pc.MustUp? then Some(s.(readers := s.readers - 1, actors := s.actors[a := Out])) else None
      case DownWrite(_) =>
        if pc.Out? && s.readers == 0 && s.writers == 0 then
          Some(s.(writers := 1, actors := s.actors[a := Writing]))
        else None
      case UpWrite(_) =>
        if pc.Writing? then Some(s.(writers := s.writers - 1, actors := s.actors[a := Out])) else None
  }

  function Run(s: State, acts: seq<Action>): Option<State>
    decreases |acts|
  {
    if acts == [] then Some(s)
    else match Step(s, acts[0])
      case None => None
      case Some(t) => Run(t, acts[1..])
  }

  predicate Init(s: State) {
    && s.mutex.None? && s.recursion == 0 && s.readers == 0 && s.writers == 0
    && forall i :: 0 <= i < |s.actors| ==> s.actors[i].Out?
  }

  // ---- Counting ----

  /** How many actors stand at one of the points in ps. */
  function At(xs: seq<Pc>, ps: set<Pc>): nat {
    if xs == [] then 0 else At(xs[..|xs| - 1], ps) + One(xs[|xs| - 1] in ps)
  }

  lemma {:induction false} AtUpdate(xs: seq<Pc>, a: nat, pc: Pc, ps: set<Pc>)
    requires a < |xs|
    ensures At(xs[a := pc], ps) == At(xs, ps) - One(xs[a] in ps) + One(pc in ps)
  {
    var n := |xs| - 1;
    if a == n {
      assert xs[a := pc][..n] == xs[..n];
    } else {
      assert xs[a := pc][..n] == xs[..n][a := pc];
      AtUpdate(xs[..n], a, pc, ps);
    }
  }

  lemma {:induction false} AtNone(xs: seq<Pc>, ps: set<Pc>)
    requires forall i :: 0 <= i < |xs| ==> xs[i] !in ps
    ensures At(xs, ps) == 0
  {
    if xs != [] {
      AtNone(xs[..|xs| - 1], ps);
    }
  }

  lemma {:induction false} AtSome(xs: seq<Pc>, a: nat, ps: set<Pc>)
    requires a < |xs|
    ensures At(xs, ps) >= One(xs[a] in ps)
  {
    if a < |xs| - 1 {
      AtSome(xs[..|xs| - 1], a, ps);
    }
  }

  // ---- The invariant ----

  /** Has the shared read side. */
  function Section(s: State): nat { At(s.actors, {MustUnlock, Inside}) }
  function Downs(s: State): nat { At(s.actors, {MustDown}) }
  function Ups(s: State): nat { At(s.actors, {MustUp}) }
  function Writes(s: State): nat { At(s.actors, {Writing}) }

  predicate HasMutex(pc: Pc) {
    pc.Locked? || pc.MustDown? || pc.MustUnlock?
  }

  ghost predicate Inv(s: State) {
    && s.recursion == Section(s) + Downs(s)
    && s.readers == Ups(s) + One(Section(s) > 0)
    && s.writers == Writes(s) && s.writers <= 1
    && (s.writers > 0 ==> s.readers == 0)
    && (Downs(s) > 0 ==> Downs(s) == 1 && Section(s) == 0)
    && (Downs(s) > 0 ==> exists i: nat :: i < |s.actors| && s.actors[i].MustDown?)
    && (s.mutex.Some? ==> s.mutex.value < |s.actors|)
    && (forall i: nat :: i < |s.actors| ==> (HasMutex(s.actors[i]) <==> s.mutex == Some(i)))
  }

  lemma StepCounts(s: State, act: Action)
    requires Step(s, act).Some?
    ensures var t := Step(s, act).value;
            var p, q := s.actors[act.a], t.actors[act.a];
            && t.actors == s.actors[act.a := q]
            && Section(t) == Section(s) - One(p.MustUnlock? || p.Inside?) + One(q.MustUnlock? || q.Inside?)
            && Downs(t) == Downs(s) - One(p.MustDown?) + One(q.MustDown?)
            && Ups(t) == Ups(s) - One(p.MustUp?) + One(q.MustUp?)
            && Writes(t) == Writes(s) - One(p.Writing?) + One(q.Writing?)
  {
    var q := Step(s, act).value.actors[act.a];
    AtUpdate(s.actors, act.a, q, {MustUnlock, Inside});
    AtUpdate(s.actors, act.a, q, {MustDown});
    AtUpdate(s.actors, act.a, q, {MustUp});
    AtUpdate(s.actors, act.a, q, {Writing});
  }

  lemma StepKeepsNumbers(s: State, act: Action)
    requires Inv(s) && Step(s, act).Some?
    ensures var t := Step(s, act).value;
            && t.recursion == Section(t) + Downs(t)
            && t.readers == Ups(t) + One(Section(t) > 0)
            && t.writers == Writes(t) && t.writers <= 1
            && (t.writers > 0 ==> t.readers == 0)
            && (Downs(t) > 0 ==> Downs(t) == 1 && Section(t) == 0)
  {
    var a := act.a;
    StepCounts(s, act);
    AtSome(s.actors, a, {MustUnlock, Inside});
    AtSome(s.actors, a, {MustDown});
    AtSome(s.actors, a, {MustUp});
    AtSome(s.actors, a, {Writing});
    if Downs(s) > 0 {
      var i: nat :| i < |s.actors| && s.actors[i].MustDown?;
      assert HasMutex(s.actors[i]) && s.mutex == Some(i);
      assert HasMutex(s.actors[a]) <==> a == i;
    }
  }

  lemma StepKeeps(s: State, act: Action)
    requires Inv(s) && Step(s, act).Some?
    ensures Inv(Step(s, act).value)
  {
    var t := Step(s, act).value;
    StepKeepsNumbers(s, act);
    StepCounts(s, act);
    assert HasMutex(s.actors[act.a]) <==> s.mutex == Some(act.a);
    if Downs(t) > 0 {
      if t.actors[act.a].MustDown? {
      } else {
        var i: nat :| i < |s.actors| && s.actors[i].MustDown?;
        assert t.actors[i].MustDown?;
      }
    }
  }

  lemma {:induction false} RunKeeps(s: State, acts: seq<Action>)
    requires Inv(s) && Run(s, acts).Some?
    ensures Inv(Run(s, acts).value)
    decreases |acts|
  {
    if acts != [] {
      StepKeeps(s, acts[0]);
      RunKeeps(Step(s, acts[0]).value, acts[1..]);
    }
  }

  lemma InitHolds(s: State)
    requires Init(s)
    ensures Inv(s)
  {
    AtNone(s.actors, {MustUnlock, Inside});
    AtNone(s.actors, {MustDown});
    AtNone(s.actors, {MustUp});
    AtNone(s.actors, {Writing});
  }

  /** In every run, while any invalidation is inside, the semaphore has a reader and
      no submitter has it for writing. */
  lemma InsideExcludesWriters(s: State, acts: seq<Action>, a: nat, w: nat)
    requires Init(s) && Run(s, acts).Some?
    requires var t := Run(s, acts).value; a < |t.actors| && t.actors[a].Inside? && w < |t.actors|
    ensures var t := Run(s, acts).value; t.readers >= 1 && t.writers == 0 && !t.actors[w].Writing?
  {
    InitHolds(s);
    RunKeeps(s, acts);
    var t := Run(s, acts).value;
    AtSome(t.actors, a, {MustUnlock, Inside});
    AtSome(t.actors, w, {Writing});
  }

  /** Nothing is leaked: with everybody out, no reader is left and the counter is zero. */
  lemma AllOutMeansFree(s: State, acts: seq<Action>)
    requires Init(s) && Run(s, acts).Some?
    requires forall i :: 0 <= i < |Run(s, acts).value.actors| ==> Run(s, acts).value.actors[i].Out?
    ensures var t := Run(s, acts).value; t.readers == 0 && t.writers == 0 && t.recursion == 0 && t.mutex.None?
  {
    InitHolds(s);
    RunKeeps(s, acts);
    var t := Run(s, acts).value;
    AtNone(t.actors, {MustUnlock, Inside});
    AtNone(t.actors, {MustDown});
    AtNone(t.actors, {MustUp});
    AtNone(t.actors, {Writing});
  }
}
