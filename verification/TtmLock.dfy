/** The reader, writer, VT and suspend lock with pending bits. One step is one
    spinlock section; the wait queue wakes every sleeper at once. kill_takers
    is false throughout. */
module TtmLock {
  import opened Wrappers
  import opened Seqs

  datatype Kind = Reader | TryReader | Writer | Vt | Suspend

  /** rw and the five flag bits. bug records a VT unlock that finds its bit clear. */
  datatype Lock = Lock(rw: int, writePending: bool, vtPending: bool, suspendPending: bool, vt: bool, suspend: bool,
                       bug: bool)

  datatype Actor = Out | Wait(kind: Kind, asleep: bool) | GiveUp(kind: Kind) | Hold(kind: Kind)

  datatype State = State(lock: Lock, actors: seq<Actor>)

  predicate NoFlags(l: Lock) {
    !l.writePending && OnlyWritePending(l)
  }

  predicate OnlyWritePending(l: Lock) {
    !l.vtPending && !l.suspendPending && !l.vt && !l.suspend
  }

  /** The test at the head of each attempt. */
  predicate Grants(l: Lock, k: Kind) {
    match k
    case Reader => l.rw >= 0 && NoFlags(l)
    case TryReader => l.rw >= 0 && NoFlags(l)
    case Writer => l.rw == 0 && OnlyWritePending(l)
    case Vt => l.rw == 0
    case Suspend => l.rw == 0
  }

  /** The lock after an attempt, granted or not. */
  function Attempted(l: Lock, k: Kind): Lock {
    if Grants(l, k) then
      match k
      case Reader => l.(rw := l.rw + 1)
      case TryReader => l.(rw := l.rw + 1)
      case Writer => l.(rw := -1, writePending := false)
      case Vt => l.(vtPending := false, vt := true)
      case Suspend => l.(suspendPending := false, suspend := true)
    else
      match k
      case Writer => l.(writePending := true)
      case Vt => l.(vtPending := true)
      case Suspend => l.(suspendPending := true)
      case _ => l
  }

  function Released(l: Lock, k: Kind): Lock {
    match k
    case Writer => l.(rw := 0)
    case Vt => l.(vt := false, bug := l.bug || !l.vt)
    case Suspend => l.(suspend := false)
    case _ => l.(rw := l.rw - 1)
  }

  /** The release wakes the queue; a reader's does so only as the last one. */
  predicate ReleaseWakes(l: Lock, k: Kind) {
    k.Reader? || k.TryReader? ==> l.rw == 1
  }

  /** An interrupted writer or VT taker withdraws its pending bit. */
  function Withdrawn(l: Lock, k: Kind): Lock {
    match k
    case Writer => l.(writePending := false)
    case Vt => l.(vtPending := false)
    case _ => l
  }

  function Woken(x: Actor): Actor {
    if x.Wait? then x.(asleep := false) else x
  }

  function WakeAll(xs: seq<Actor>): (ys: seq<Actor>)
    ensures |ys| == |xs| && forall i :: 0 <= i < |xs| ==> ys[i] == Woken(xs[i])
  {
    seq(|xs|, i requires 0 <= i < |xs| => Woken(xs[i]))
  }

  datatype Action = Ask(a: nat, kind: Kind) | Attempt(a: nat) | Interrupt(a: nat) | Withdraw(a: nat) | Release(a: nat)

  function Step(s: State, act: Action): Option<State> {
    if act.a >= |s.actors| then None
    else
      var a, l, xs := act.a, s.lock, s.actors;
      var x := xs[a];
      match act
      case Ask(_, k) => if x.Out? then Some(State(l, xs[a := Wait(k, false)])) else None
      case Attempt(_) =>
        if x.Wait? && !x.asleep then
          var k := x.kind;
          var x' := if Grants(l, k) then Hold(k) else if k.TryReader? && NoFlags(l) then Out else Wait(k, true);
          Some(State(Attempted(l, k), xs[a := x']))
        else None
      case Interrupt(_) =>
        if x.Wait? && !x.kind.Suspend? then
          Some(State(l, xs[a := if x.kind.Writer? || x.kind.Vt? then GiveUp(x.kind) else Out]))
        else None
      case Withdraw(_) =>
        if x.GiveUp? then Some(State(Withdrawn(l, x.kind), WakeAll(xs[a := Out]))) else None
      case Release(_) =>
        if x.Hold? then
          var ys := xs[a := Out];
          Some(State(Released(l, x.kind), if ReleaseWakes(l, x.kind) then WakeAll(ys) else ys))
        else None
  }

  function Run(s: State, acts: seq<Action>): Option<State>
    decreases |acts|
  {
    if acts == [] then Some(s)
    else match Step(s, acts[0])
      case None => None
      case Some(t) => Run(t, acts[1..])
  }

  predicate Init(s: State) {
    && s.lock == Lock(0, false, false, false, false, false, false)
    && forall i :: 0 <= i < |s.actors| ==> s.actors[i] == Out
  }

  // ---- Counting holders ----

  predicate HoldsAs(x: Actor, k: Kind) {
    x.Hold? && (x.kind == k || (k.Reader? && x.kind.TryReader?))
  }

  /** Holders of a kind; readers include those that came through trylock. */
  function Holders(xs: seq<Actor>, k: Kind): nat {
    if xs == [] then 0 else Holders(xs[..|xs| - 1], k) + One(HoldsAs(xs[|xs| - 1], k))
  }

  lemma {:induction false} HoldersUpdate(xs: seq<Actor>, a: nat, x: Actor, k: Kind)
    requires a < |xs|
    ensures Holders(xs[a := x], k) == Holders(xs, k) - One(HoldsAs(xs[a], k)) + One(HoldsAs(x, k))
  {
    var n := |xs| - 1;
    if a == n {
      assert xs[a := x][..n] == xs[..n];
    } else {
      assert xs[a := x][..n] == xs[..n][a := x];
      HoldersUpdate(xs[..n], a, x, k);
    }
  }

  lemma {:induction false} HoldersWake(xs: seq<Actor>, k: Kind)
    ensures Holders(WakeAll(xs), k) == Holders(xs, k)
  {
    if xs != [] {
      var n := |xs| - 1;
      assert WakeAll(xs)[..n] == WakeAll(xs[..n]);
      HoldersWake(xs[..n], k);
    }
  }

  lemma {:induction false} HoldersNone(xs: seq<Actor>, k: Kind)
    requires forall i :: 0 <= i < |xs| ==> !HoldsAs(xs[i], k)
    ensures Holders(xs, k) == 0
  {
    if xs != [] {
      HoldersNone(xs[..|xs| - 1], k);
    }
  }

  lemma HoldersSelf(xs: seq<Actor>, a: nat, k: Kind)
    requires a < |xs|
    ensures Holders(xs, k) >= One(HoldsAs(xs[a], k))
  {
    HoldersUpdate(xs, a, Out, k);
  }

  // ---- The invariant ----

  predicate Waits(x: Actor, k: Kind) {
    (x.Wait? || x.GiveUp?) && x.kind == k
  }

  ghost predicate SomeWaits(xs: seq<Actor>, k: Kind) {
    exists i :: 0 <= i < |xs| && Waits(xs[i], k)
  }

  predicate PendingBit(l: Lock, k: Kind) {
    match k
    case Writer => l.writePending
    case Vt => l.vtPending
    case Suspend => l.suspendPending
    case _ => false
  }

  /** A sleeper of this kind has something to wait for. */
  predicate Blocked(l: Lock, k: Kind) {
    match k
    case Writer => l.rw != 0 || !OnlyWritePending(l)
    case Vt => l.rw != 0
    case Suspend => l.rw != 0
    case _ => l.rw < 0 || !NoFlags(l)
  }

  predicate CountsAgree(l: Lock, readers: nat, writers: nat) {
    if l.rw >= 0 then l.rw == readers && writers == 0 else l.rw == -1 && readers == 0 && writers == 1
  }

  predicate SleepersBlocked(l: Lock, xs: seq<Actor>) {
    forall i :: 0 <= i < |xs| && xs[i].Wait? && xs[i].asleep ==> Blocked(l, xs[i].kind)
  }

  ghost predicate Inv(s: State) {
    && CountsAgree(s.lock, Holders(s.actors, Reader), Holders(s.actors, Writer))
    && (s.lock.vt || s.lock.suspend ==> s.lock.rw == 0)
    && SleepersBlocked(s.lock, s.actors)
    && (forall k :: PendingBit(s.lock, k) ==> SomeWaits(s.actors, k))
    && (forall i :: 0 <= i < |s.actors| && s.actors[i].GiveUp? ==> s.actors[i].kind.Writer? || s.actors[i].kind.Vt?)
  }

  /** The holders of every kind after a step: only the acting actor's own hold changes. */
  lemma StepHolders(s: State, act: Action, k: Kind)
    requires Step(s, act).Some?
    ensures var t := Step(s, act).value;
            && |t.actors| == |s.actors|
            && Holders(s.actors, k) >= One(HoldsAs(s.actors[act.a], k))
            && Holders(t.actors, k) == Holders(s.actors, k) - One(HoldsAs(s.actors[act.a], k))
                                       + One(HoldsAs(t.actors[act.a], k))
  {
    var xs, a, ys := s.actors, act.a, Step(s, act).value.actors;
    HoldersSelf(xs, a, k);
    HoldersUpdate(xs, a, Out, k);
    HoldersWake(xs[a := Out], k);
    HoldersUpdate(xs, a, ys[a], k);
  }

  lemma StepKeepsCounts(s: State, act: Action)
    requires Inv(s) && Step(s, act).Some?
    ensures var t := Step(s, act).value;
            CountsAgree(t.lock, Holders(t.actors, Reader), Holders(t.actors, Writer))
            && (t.lock.vt || t.lock.suspend ==> t.lock.rw == 0)
  {
    StepHolders(s, act, Reader);
    StepHolders(s, act, Writer);
  }

  lemma StepKeepsSleepers(s: State, act: Action)
    requires Inv(s) && Step(s, act).Some?
    ensures var t := Step(s, act).value;
            && SleepersBlocked(t.lock, t.actors)
            && forall i :: 0 <= i < |t.actors| && t.actors[i].GiveUp? ==> t.actors[i].kind.Writer? || t.actors[i].kind.Vt?
  {
    StepHolders(s, act, Reader);
  }

  lemma StepKeepsPending(s: State, act: Action, k: Kind)
    requires Inv(s) && Step(s, act).Some? && PendingBit(Step(s, act).value.lock, k)
    ensures SomeWaits(Step(s, act).value.actors, k)
  {
    var t := Step(s, act).value;
    if PendingBit(s.lock, k) {
      var i :| 0 <= i < |s.actors| && Waits(s.actors[i], k);
      assert Waits(t.actors[i], k);
    } else {
      assert Waits(t.actors[act.a], k);
    }
  }

  lemma StepKeeps(s: State, act: Action)
    requires Inv(s) && Step(s, act).Some?
    ensures Inv(Step(s, act).value)
  {
    StepKeepsCounts(s, act);
    StepKeepsSleepers(s, act);
    forall k | PendingBit(Step(s, act).value.lock, k)
      ensures SomeWaits(Step(s, act).value.actors, k)
    {
      StepKeepsPending(s, act, k);
    }
  }

  lemma {:induction false} RunKeeps(s: State, acts: seq<Action>)
    requires Inv(s) && Run(s, acts).Some?
    ensures Inv(Run(s, acts).value)
    decreases |acts|
  {
    if acts != [] {
      StepKeeps(s, acts[0]);
      RunKeeps(Step(s, acts[0]).value, acts[1..]);
    }
  }

  lemma InitHolds(s: State)
    requires Init(s)
    ensures Inv(s)
  {
    HoldersNone(s.actors, Reader);
    HoldersNone(s.actors, Writer);
  }

  // ---- Safety of every run ----

  /** The counter tells the readers and the single writer exactly, a VT or suspend
      bit keeps both out, and a pending bit stands for a waiter of its kind. */
  lemma RunSafe(s: State, acts: seq<Action>)
    requires Init(s) && Run(s, acts).Some?
    ensures var t := Run(s, acts).value;
            var r, w := Holders(t.actors, Reader), Holders(t.actors, Writer);
            && (t.lock.rw == -1 <==> w == 1) && w <= 1
            && (t.lock.rw >= 0 ==> t.lock.rw == r) && (w == 1 ==> r == 0)
            && (t.lock.vt || t.lock.suspend ==> r == 0 && w == 0)
            && (t.lock.writePending ==> SomeWaits(t.actors, Writer))
            && (t.lock.vtPending ==> SomeWaits(t.actors, Vt))
            && (t.lock.suspendPending ==> SomeWaits(t.actors, Suspend))
  {
    InitHolds(s);
    RunKeeps(s, acts);
    var t := Run(s, acts).value;
    assert PendingBit(t.lock, Writer) == t.lock.writePending;
    assert PendingBit(t.lock, Vt) == t.lock.vtPending;
    assert PendingBit(t.lock, Suspend) == t.lock.suspendPending;
  }

  // ---- No lost wake-up ----

  predicate Unheld(l: Lock) {
    l.rw == 0 && !l.vt && !l.suspend
  }

  predicate Waiting(x: Actor) {
    x.Wait? || x.GiveUp?
  }

  predicate Asleep(x: Actor) {
    x.Wait? && x.asleep
  }

  /** The next own step of the actor takes the lock, or withdraws a pending bit and wakes everybody. */
  predicate WillAct(l: Lock, x: Actor) {
    || x.GiveUp?
    || (x.Wait? && !x.asleep && Grants(l, x.kind))
  }

  /** With the lock unheld, an asleep actor points to a waiter that is not asleep:
      one that would be granted, or one about to withdraw. */
  lemma SleeperHasWaker(s: State, i: nat) returns (j: nat)
    requires Inv(s) && Unheld(s.lock) && i < |s.actors| && Waiting(s.actors[i])
    ensures j < |s.actors| && Waiting(s.actors[j]) && !Asleep(s.actors[j]) && WillAct(s.lock, s.actors[j])
  {
    var l, xs := s.lock, s.actors;
    if PendingBit(l, Vt) {
      j :| 0 <= j < |xs| && Waits(xs[j], Vt);
    } else if PendingBit(l, Suspend) {
      j :| 0 <= j < |xs| && Waits(xs[j], Suspend);
    } else if PendingBit(l, Writer) {
      j :| 0 <= j < |xs| && Waits(xs[j], Writer);
    } else {
      j := i;
    }
  }

  /** In every run, when nothing is held and somebody waits, not all waiters are
      asleep, and some waiter's attempt succeeds or a withdrawing one wakes all. */
  lemma NeverAllAsleep(s: State, acts: seq<Action>)
    requires Init(s) && Run(s, acts).Some? && Unheld(Run(s, acts).value.lock)
    requires exists i :: 0 <= i < |Run(s, acts).value.actors| && Waiting(Run(s, acts).value.actors[i])
    ensures var t := Run(s, acts).value;
            exists j :: 0 <= j < |t.actors| && Waiting(t.actors[j]) && !Asleep(t.actors[j])
                        && WillAct(t.lock, t.actors[j])
  {
    InitHolds(s);
    RunKeeps(s, acts);
    var t := Run(s, acts).value;
    var i :| 0 <= i < |t.actors| && Waiting(t.actors[i]);
    var j := SleeperHasWaker(t, i);
  }

  // ---- VT and suspend holders ----

  /** Each VT or suspend holder is protected by its bit. */
  ghost predicate Protected(s: State) {
    (Holders(s.actors, Vt) > 0 ==> s.lock.vt) && (Holders(s.actors, Suspend) > 0 ==> s.lock.suspend)
  }

  /** A VT or suspend holder releases while another of its kind holds. */
  ghost predicate Overlaps(s: State, act: Action) {
    && act.Release? && act.a < |s.actors|
    && (s.actors[act.a] == Hold(Vt) || s.actors[act.a] == Hold(Suspend))
    && Holders(s.actors, s.actors[act.a].kind) > 1
  }

  /** Protection survives a step exactly when the step is not an overlapping release. */
  lemma StepProtectedIff(s: State, act: Action)
    requires Inv(s) && Protected(s) && Step(s, act).Some?
    ensures Protected(Step(s, act).value) <==> !Overlaps(s, act)
    ensures Step(s, act).value.lock.bug == s.lock.bug
  {
    StepHolders(s, act, Vt);
    StepHolders(s, act, Suspend);
  }

  ghost predicate NeverOverlaps(s: State, acts: seq<Action>)
    decreases |acts|
  {
    acts == [] || (!Overlaps(s, acts[0]) && (Step(s, acts[0]).Some? ==> NeverOverlaps(Step(s, acts[0]).value, acts[1..])))
  }

  lemma {:induction false} RunProtected(s: State, acts: seq<Action>)
    requires Inv(s) && Protected(s) && !s.lock.bug && Run(s, acts).Some? && NeverOverlaps(s, acts)
    ensures var t := Run(s, acts).value; Inv(t) && Protected(t) && !t.lock.bug
    decreases |acts|
  {
    if acts != [] {
      StepKeeps(s, acts[0]);
      StepProtectedIff(s, acts[0]);
      RunProtected(Step(s, acts[0]).value, acts[1..]);
    }
  }

  /** Without overlapping releases a VT or suspend holder excludes readers and the
      writer, and no VT unlock finds its bit clear. */
  lemma RunExcludes(s: State, acts: seq<Action>)
    requires Init(s) && Run(s, acts).Some? && NeverOverlaps(s, acts)
    ensures var t := Run(s, acts).value;
            && !t.lock.bug
            && (Holders(t.actors, Vt) > 0 || Holders(t.actors, Suspend) > 0 ==>
                  Holders(t.actors, Reader) == 0 && Holders(t.actors, Writer) == 0)
  {
    InitHolds(s);
    HoldersNone(s.actors, Vt);
    HoldersNone(s.actors, Suspend);
    RunProtected(s, acts);
  }

  ghost predicate Reaches(s: State, t: State) {
    exists acts: seq<Action> :: Run(s, acts) == Some(t)
  }

  lemma {:induction false} RunOneMore(s: State, acts: seq<Action>, act: Action)
    requires Run(s, acts).Some? && Step(Run(s, acts).value, act).Some?
    ensures Run(s, acts + [act]) == Step(Run(s, acts).value, act)
    decreases |acts|
  {
    if acts == [] {
      assert (acts + [act])[1..] == [];
    } else {
      assert (acts + [act])[1..] == acts[1..] + [act];
      RunOneMore(Step(s, acts[0]).value, acts[1..], act);
    }
  }

  lemma Go(s: State, t: State, act: Action, u: State)
    requires Reaches(s, t) && Step(t, act) == Some(u)
    ensures Reaches(s, u)
  {
    var acts :| Run(s, acts) == Some(t);
    RunOneMore(s, acts, act);
  }

  /** An actor asks for VT while nobody reads or writes: it is granted, whoever else holds VT. */
  lemma VtGranted(s: State, t: State, a: nat)
    requires Reaches(s, t) && a < |t.actors| && t.actors[a] == Out && t.lock.rw == 0
    ensures Reaches(s, State(t.lock.(vtPending := false, vt := true), t.actors[a := Hold(Vt)]))
  {
    var xs := t.actors[a := Wait(Vt, false)];
    Go(s, t, Ask(a, Vt), State(t.lock, xs));
    assert xs[a := Hold(Vt)] == t.actors[a := Hold(Vt)];
    Go(s, State(t.lock, xs), Attempt(a), State(t.lock.(vtPending := false, vt := true), t.actors[a := Hold(Vt)]));
  }

  lemma ReaderEnters(s: State, t: State, a: nat)
    requires Reaches(s, t) && a < |t.actors| && t.actors[a] == Out && t.lock.rw == 0 && NoFlags(t.lock)
    ensures Reaches(s, State(t.lock.(rw := 1), t.actors[a := Hold(Reader)]))
  {
    var xs := t.actors[a := Wait(Reader, false)];
    Go(s, t, Ask(a, Reader), State(t.lock, xs));
    assert xs[a := Hold(Reader)] == t.actors[a := Hold(Reader)];
    Go(s, State(t.lock, xs), Attempt(a), State(t.lock.(rw := 1), t.actors[a := Hold(Reader)]));
  }

  lemma VtReleased(s: State, t: State, a: nat, u: State)
    requires Reaches(s, t) && a < |t.actors| && t.actors[a] == Hold(Vt)
    requires forall i :: 0 <= i < |t.actors| ==> !t.actors[i].Wait?
    requires u == State(Released(t.lock, Vt), t.actors[a := Out])
    ensures Reaches(s, u)
  {
    assert WakeAll(t.actors[a := Out]) == t.actors[a := Out];
    Go(s, t, Release(a), u);
  }

  /** The exclusion does fail otherwise: two VT takers are granted one after the
      other, the first releases, a reader enters beside the second, and when that
      one releases it finds its bit clear. */
  lemma OverlapAdmitsReader(s: State)
    requires Init(s) && |s.actors| == 3
    ensures exists t: State :: Reaches(s, t) && t.actors == [Out, Hold(Vt), Hold(Reader)]
    ensures exists t: State :: Reaches(s, t) && t.lock.bug
  {
    var l := s.lock;
    assert Run(s, []) == Some(s);
    var t1 := State(l.(vt := true), s.actors[0 := Hold(Vt)]);
    VtGranted(s, s, 0);
    var t2 := State(l.(vt := true), t1.actors[1 := Hold(Vt)]);
    VtGranted(s, t1, 1);
    var t3 := State(l, t2.actors[0 := Out]);
    VtReleased(s, t2, 0, t3);
    var t4 := State(l.(rw := 1), t3.actors[2 := Hold(Reader)]);
    ReaderEnters(s, t3, 2);
    assert t4.actors == [Out, Hold(Vt), Hold(Reader)];
    VtReleased(s, t4, 1, State(Released(t4.lock, Vt), t4.actors[1 := Out]));
  }
}
