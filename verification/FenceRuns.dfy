/** What the fence ring guarantees over whole runs, and where it stops. */
module FenceRuns {
  import opened Bits
  import opened Wrappers
  import opened FenceRing
  import opened FenceRefinement

  function Run(d: Driver, acts: seq<Action>): Option<Driver>
    decreases |acts|
  {
    if acts == [] then Some(d)
    else match Step(d, acts[0])
         case None => None
         case Some(d') => Run(d', acts[1..])
  }

  function LogRun(l: Log, acts: seq<Action>, m: nat): Option<Log>
    requires |l.stage| == |l.signals| == l.emitted
    decreases |acts|
  {
    if acts == [] then Some(l)
    else match LogStep(l, acts[0], m)
         case None => None
         case Some(l') => if |l'.stage| == |l'.signals| == l'.emitted then LogRun(l', acts[1..], m) else None
  }

  /** No processing call claims a range after sleeping through a multiple of
      2^32 fences. */
  predicate NeverStale(l: Log, acts: seq<Action>, m: nat)
    requires |l.stage| == |l.signals| == l.emitted
    decreases |acts|
  {
    acts == [] ||
    (!Stale(l, acts[0]) &&
     match LogStep(l, acts[0], m)
     case None => true
     case Some(l') => |l'.stage| == |l'.signals| == l'.emitted ==> NeverStale(l', acts[1..], m))
  }

  /** Initialisation accepts a submission count exactly when it is zero or a
      power of two. */
  lemma InitAccepts(n: nat, numProcs: nat)
    requires n < U32
    ensures InitRing(n, numProcs).Some? <==> n == 0 || IsPow2(n)
  {
    PowerOfTwoTest(n);
  }

  lemma RingSizeIff(n: nat)
    requires n < U32 && IsPow2(n)
    ensures n >= 1
    ensures n <= 0x4000_0000 ==> RingSize(n * 2 % U32) && n * 2 % U32 == n * 2
    ensures n > 0x4000_0000 ==> n * 2 % U32 == 0
  {
    var k: nat :| n == Pow2(k);
    Pow2Of30();
    Pow2Of32();
    if k <= 30 {
      if k < 30 {
        Pow2Increases(k, 30);
      }
      assert n * 2 == Pow2(k + 1);
    } else if k >= 32 {
      if k > 32 {
        Pow2Increases(32, k);
      }
      assert false;
    }
  }

  /** Of the accepted counts, exactly those from 1 to 2^30 give a ring whose
      mask and slots fit together; 0 and 2^31 are accepted but do not. */
  lemma InitUsableIff(n: nat, numProcs: nat)
    requires n < U32 && InitRing(n, numProcs).Some?
    ensures RingSize(n * 2 % U32) && Rel(InitRing(n, numProcs).value, InitLog(numProcs), n * 2 % U32)
            <==> 1 <= n <= 0x4000_0000
  {
    PowerOfTwoTest(n);
    if n != 0 {
      RingSizeIff(n);
    }
  }

  lemma InitSize(n: nat, numProcs: nat)
    requires 1 <= n <= 0x4000_0000 && InitRing(n, numProcs).Some?
    ensures RingSize(n * 2) && n * 2 % U32 == n * 2
  {
    PowerOfTwoTest(n);
    RingSizeIff(n);
  }

  /** The driver and the log run in lockstep from any related states. */
  lemma {:induction false} RunRefinesFrom(d: Driver, l: Log, acts: seq<Action>, m: nat)
    requires RingSize(m) && LogInv(l, m) && Rel(d, l, m)
    requires NeverStale(l, acts, m)
    ensures Run(d, acts).Some? <==> LogRun(l, acts, m).Some?
    ensures Run(d, acts).Some? ==>
              Rel(Run(d, acts).value, LogRun(l, acts, m).value, m) && LogInv(LogRun(l, acts, m).value, m)
    decreases |acts|
  {
    if acts != [] {
      StepRefines(d, l, acts[0], m);
      if Step(d, acts[0]).Some? {
        RunRefinesFrom(Step(d, acts[0]).value, LogStep(l, acts[0], m).value, acts[1..], m);
      }
    }
  }

  /** A fence signaled after the first k steps is signaled at the end. */
  ghost predicate StaysSignaled(d: Driver, acts: seq<Action>, k: nat, i: nat)
    requires k <= |acts|
  {
    && Run(d, acts).Some? && Run(d, acts[..k]).Some?
    && var d1, d2 := Run(d, acts[..k]).value, Run(d, acts).value;
       i < |d1.fences| && d1.fences[i].signaled ==> i < |d2.fences| && d2.fences[i].signaled
  }

  lemma StepSignaled(d: Driver, a: Action, i: nat)
    requires Step(d, a).Some? && i < |d.fences| && d.fences[i].signaled
    ensures i < |Step(d, a).value.fences| && Step(d, a).value.fences[i].signaled
  {
  }

  lemma {:induction false} SignaledForever(d: Driver, acts: seq<Action>, k: nat, i: nat)
    requires Run(d, acts).Some? && k <= |acts|
    ensures StaysSignaled(d, acts, k, i)
    decreases |acts|
  {
    if acts == [] {
      assert acts[..k] == acts;
    } else {
      var d' := Step(d, acts[0]).value;
      if k > 0 {
        SignaledForever(d', acts[1..], k - 1, i);
        assert acts[..k][1..] == acts[1..][..k - 1];
      } else {
        SignaledForever(d', acts[1..], 0, i);
        assert acts[..0] == [] && acts[1..][..0] == [];
        if i < |d.fences| && d.fences[i].signaled {
          StepSignaled(d, acts[0], i);
        }
      }
    }
  }

  lemma InitRel(n: nat, numProcs: nat, m: nat)
    requires 1 <= n <= 0x4000_0000 && InitRing(n, numProcs).Some? && m == 2 * n
    ensures RingSize(m) && Rel(InitRing(n, numProcs).value, InitLog(numProcs), m)
  {
    assert n * 2 % U32 == m;
    InitUsableIff(n, numProcs);
  }

  /** The initial states agree. */
  lemma InitRelated(n: nat, numProcs: nat, d: Driver, l: Log)
    requires 1 <= n <= 0x4000_0000 && InitRing(n, numProcs) == Some(d) && l == InitLog(numProcs)
    ensures RingSize(2 * n) && LogInv(l, 2 * n) && Rel(d, l, 2 * n)
  {
    LogInit(numProcs, 2 * n);
    InitRel(n, numProcs, 2 * n);
  }

  /** Main result.  For every interleaving of one emitter, any number of
      processing calls and a hardware that writes no more than was committed:
      the wrapping masked ring does what the unbounded log does; no fence is
      signaled twice; a fence is signaled only once the fence memory has
      reached it; at most 2N stored fences await signaling; and a fence signaled
      at any point of the run stays signaled. */
  lemma RunSafe(n: nat, numProcs: nat, acts: seq<Action>)
    requires 1 <= n <= 0x4000_0000 && InitRing(n, numProcs).Some?
    requires NeverStale(InitLog(numProcs), acts, 2 * n)
    requires Run(InitRing(n, numProcs).value, acts).Some?
    ensures LogRun(InitLog(numProcs), acts, 2 * n).Some?
    ensures Safe(Run(InitRing(n, numProcs).value, acts).value, LogRun(InitLog(numProcs), acts, 2 * n).value, 2 * n)
    ensures forall k: nat, i: nat :: k <= |acts| ==> StaysSignaled(InitRing(n, numProcs).value, acts, k, i)
  {
    var d0 := InitRing(n, numProcs).value;
    var l0 := InitLog(numProcs);
    InitRelated(n, numProcs, d0, l0);
    RunRefinesFrom(d0, l0, acts, 2 * n);
    RelIsSafe(Run(d0, acts).value, LogRun(l0, acts, 2 * n).value, 2 * n);
    forall k: nat, i: nat | k <= |acts|
      ensures StaysSignaled(d0, acts, k, i)
    {
      SignaledForever(d0, acts, k, i);
    }
  }

  /** The driver agrees with the log, has signaled each fence at most once and none before the
      fence memory reached it, and has at most m stored fences unclaimed. */
  ghost predicate Safe(d: Driver, l: Log, m: nat) {
    && Rel(d, l, m) && !d.bug
    && |l.signals| == |d.fences| == l.emitted
    && (forall i :: 0 <= i < l.emitted ==>
          l.signals[i] <= 1
          && (d.fences[i].signaled <==> l.signals[i] == 1)
          && (d.fences[i].signaled ==> i < l.last <= l.hw))
    && StoredCount(l) <= l.last + m
  }

  lemma RelIsSafe(d: Driver, l: Log, m: nat)
    requires LogInv(l, m) && Rel(d, l, m)
    ensures Safe(d, l, m)
  {
    Outstanding(l, m);
    forall i | 0 <= i < l.emitted
      ensures l.signals[i] <= 1
      ensures d.fences[i].signaled <==> l.signals[i] == 1
      ensures d.fences[i].signaled ==> i < l.last <= l.hw
    {
      assert StageInv(l, i);
    }
  }

  /** Once no processing call is under way, every claimed fence is signaled. */
  lemma QuiescentMeansSignaled(d: Driver, l: Log, m: nat, i: nat)
    requires RingSize(m) && LogInv(l, m) && Rel(d, l, m)
    requires AtRest(d)
    requires i < l.last
    ensures i < |d.fences| && d.fences[i].signaled
  {
    forall p | 0 <= p < |l.procs|
      ensures l.procs[p].LIdle? || l.procs[p].LRetry?
    {
      assert ProcRel(d.procs[p], l.procs[p], m);
    }
    assert StageInv(l, i);
  }

  // --------------------------------------- exactly once

  lemma {:induction false} LogRunAppend(l: Log, xs: seq<Action>, ys: seq<Action>, m: nat)
    requires |l.stage| == |l.signals| == l.emitted
    requires LogRun(l, xs, m).Some? && NeverStale(l, xs + ys, m)
    ensures var l1 := LogRun(l, xs, m).value;
            && |l1.stage| == |l1.signals| == l1.emitted
            && NeverStale(l1, ys, m) && LogRun(l, xs + ys, m) == LogRun(l1, ys, m)
    decreases |xs|
  {
    if xs == [] {
      assert xs + ys == ys;
    } else {
      assert (xs + ys)[1..] == xs[1..] + ys;
      LogRunAppend(LogStep(l, xs[0], m).value, xs[1..], ys, m);
    }
  }

  lemma {:induction false} NeverStalePrefix(l: Log, xs: seq<Action>, ys: seq<Action>, m: nat)
    requires |l.stage| == |l.signals| == l.emitted && NeverStale(l, xs + ys, m)
    ensures NeverStale(l, xs, m)
    decreases |xs|
  {
    if xs != [] {
      assert (xs + ys)[1..] == xs[1..] + ys;
      var l' := LogStep(l, xs[0], m);
      if l'.Some? && |l'.value.stage| == |l'.value.signals| == l'.value.emitted {
        NeverStalePrefix(l'.value, xs[1..], ys, m);
      }
    }
  }

  /** Since call p was started, with the fence memory at h: if it has finished or is walking, all fences up to
      h are claimed; if it has read the fence memory, it read at least h. */
  ghost predicate Served(d: Driver, l: Log, p: nat, h: nat) {
    && p < |l.procs| == |d.procs| && h <= l.hw
    && match l.procs[p]
       case LGotLast(_) => true
       case LGotSeq(_, now) => h <= now
       case LRetry => d.procs[p].Idle? ==> h <= l.last
       case _ => h <= l.last
  }

  /** Nobody takes a claim back. */
  lemma ClaimsGrow(l: Log, a: Action, m: nat)
    requires LogInv(l, m) && LogStep(l, a, m).Some?
    ensures var l' := LogStep(l, a, m).value; l.last <= l'.last && l.hw <= l'.hw
  {
    if Actor(a).Some? {
      assert PcInv(l, Actor(a).value);
    }
  }

  /** A call that ends on a wrapped value was overtaken: what it read is claimed. */
  lemma EndsOvertaken(l: Log, m: nat, p: nat)
    requires RingSize(m) && LogInv(l, m) && p < |l.procs| && l.procs[p].LGotSeq?
    requires l.last % U32 == l.procs[p].last % U32 == l.procs[p].now % U32
    ensures l.procs[p].now <= l.last
  {
    assert PcInv(l, p);
    WithinWrap(l, m);
    if l.procs[p].now > l.last {
      ModInjective(l.last, l.procs[p].now, U32);
    }
  }

  lemma ExchangeServes(d: Driver, l: Log, m: nat, p: nat, h: nat)
    requires RingSize(m) && LogInv(l, m) && Rel(d, l, m) && Served(d, l, p, h) && !Stale(l, CompareExchange(p))
    requires Step(d, CompareExchange(p)).Some? && LogStep(l, CompareExchange(p), m).Some?
    ensures Served(Step(d, CompareExchange(p)).value, LogStep(l, CompareExchange(p), m).value, p, h)
  {
    assert ProcRel(d.procs[p], l.procs[p], m);
    var LGotSeq(a, now) := l.procs[p];
    if l.last != a && l.last % U32 == a % U32 {
      EndsOvertaken(l, m, p);
    }
  }

  lemma OwnStepServes(d: Driver, l: Log, a: Action, m: nat, p: nat, h: nat)
    requires RingSize(m) && LogInv(l, m) && Rel(d, l, m) && Served(d, l, p, h) && Actor(a) == Some(p) && !a.CompareExchange?
    requires Step(d, a).Some? && LogStep(l, a, m).Some?
    ensures Served(Step(d, a).value, LogStep(l, a, m).value, p, h)
  {
  }

  lemma OtherStepServes(d: Driver, l: Log, a: Action, m: nat, p: nat, h: nat)
    requires LogInv(l, m) && Served(d, l, p, h) && Actor(a) != Some(p)
    requires Step(d, a).Some? && LogStep(l, a, m).Some?
    ensures Served(Step(d, a).value, LogStep(l, a, m).value, p, h)
  {
    ClaimsGrow(l, a, m);
    OthersStand(d, l, a, m, p);
  }

  lemma OthersStand(d: Driver, l: Log, a: Action, m: nat, p: nat)
    requires |l.stage| == |l.signals| == l.emitted && p < |l.procs| == |d.procs| && Actor(a) != Some(p)
    requires Step(d, a).Some? && LogStep(l, a, m).Some?
    ensures var d', l' := Step(d, a).value, LogStep(l, a, m).value;
            |l'.procs| == |d'.procs| == |d.procs| && l'.procs[p] == l.procs[p] && d'.procs[p] == d.procs[p]
  {
  }

  lemma {:induction false} RunServes(d: Driver, l: Log, acts: seq<Action>, m: nat, p: nat, h: nat)
    requires RingSize(m) && LogInv(l, m) && Rel(d, l, m) && NeverStale(l, acts, m) && Run(d, acts).Some?
    requires Served(d, l, p, h)
    ensures LogRun(l, acts, m).Some? && Served(Run(d, acts).value, LogRun(l, acts, m).value, p, h)
    decreases |acts|
  {
    if acts != [] {
      var a := acts[0];
      StepRefines(d, l, a, m);
      if Actor(a) != Some(p) {
        OtherStepServes(d, l, a, m, p, h);
      } else if a.CompareExchange? {
        ExchangeServes(d, l, m, p, h);
      } else {
        OwnStepServes(d, l, a, m, p, h);
      }
      RunServes(Step(d, a).value, LogStep(l, a, m).value, acts[1..], m, p, h);
    }
  }

  /** No processing call is under way. */
  predicate AtRest(d: Driver) {
    forall q :: 0 <= q < |d.procs| ==> d.procs[q].Idle?
  }

  /** Every fence below h was signaled exactly once, and none from h on. */
  ghost predicate OnceBelow(d: Driver, l: Log, h: nat) {
    && |l.signals| == |d.fences| == l.emitted && h <= l.emitted
    && forall i :: 0 <= i < l.emitted ==>
         l.signals[i] == (if i < h then 1 else 0) && (d.fences[i].signaled <==> i < h)
  }

  lemma IdleMeansOnce(d: Driver, l: Log, m: nat)
    requires RingSize(m) && LogInv(l, m) && Rel(d, l, m)
    requires AtRest(d)
    ensures OnceBelow(d, l, l.last)
  {
    RelIsSafe(d, l, m);
    forall i | 0 <= i < l.emitted
      ensures l.signals[i] == (if i < l.last then 1 else 0) && (d.fences[i].signaled <==> i < l.last)
    {
      assert StageInv(l, i);
      if i < l.last {
        QuiescentMeansSignaled(d, l, m, i);
      }
    }
  }

  /** Fence i is with a call that has claimed it and not come to signal it. */
  ghost predicate InHand(l: Log, i: nat)
    requires i < |l.stage|
  {
    exists q :: 0 <= q < |l.procs| && Owes(l.procs[q], i, l.stage[i], q)
  }

  /** Every fence below the claims was signaled exactly once or is in the hands of a call
      under way, and no other fence was signaled. */
  ghost predicate OnceOrInHand(d: Driver, l: Log) {
    && |l.stage| == |l.signals| == |d.fences| == l.emitted
    && forall i :: 0 <= i < l.emitted ==>
         && l.signals[i] == (if i < l.last && !InHand(l, i) then 1 else 0)
         && (d.fences[i].signaled <==> l.signals[i] == 1)
  }

  lemma ClaimedOnce(d: Driver, l: Log, m: nat)
    requires LogInv(l, m) && Rel(d, l, m)
    ensures OnceOrInHand(d, l)
  {
    RelIsSafe(d, l, m);
    forall i | 0 <= i < l.emitted
      ensures l.signals[i] == (if i < l.last && !InHand(l, i) then 1 else 0)
      ensures d.fences[i].signaled <==> l.signals[i] == 1
    {
      assert StageInv(l, i);
    }
  }

  /** After `before`, call p starts; any number of other calls, the emitter and the hardware go on; and
      p has finished at the end. */
  ghost predicate IsCall(d: Driver, before: seq<Action>, call: seq<Action>, p: nat) {
    && Run(d, before).Some? && Run(d, before + call).Some?
    && p < |Run(d, before).value.procs| && Run(d, before).value.procs[p].Idle?
    && p < |Run(d, before + call).value.procs| && Run(d, before + call).value.procs[p].Idle?
    && call != [] && call[0] == ReadLast(p)
  }

  /** Everything the fence memory had reached when the call started is claimed; what is claimed was signaled exactly
      once over the whole run, but for what other calls still have in hand; with none
      under way, all of it was. */
  ghost predicate ExactlyOnce(d: Driver, l: Log, before: seq<Action>, call: seq<Action>, m: nat)
    requires |l.stage| == |l.signals| == l.emitted
  {
    && LogRun(l, before, m).Some? && LogRun(l, before + call, m).Some? && Run(d, before + call).Some?
    && var l1, l2, d2 := LogRun(l, before, m).value, LogRun(l, before + call, m).value, Run(d, before + call).value;
       l1.hw <= l2.last <= l2.hw && OnceOrInHand(d2, l2) && (AtRest(d2) ==> OnceBelow(d2, l2, l2.last))
  }

  lemma CallFrom(d: Driver, l: Log, call: seq<Action>, m: nat, p: nat)
    requires RingSize(m) && LogInv(l, m) && Rel(d, l, m) && NeverStale(l, call, m)
    requires Run(d, call).Some? && p < |Run(d, call).value.procs| && Run(d, call).value.procs[p].Idle?
    requires call != [] && call[0] == ReadLast(p)
    ensures LogRun(l, call, m).Some?
    ensures var d', l' := Run(d, call).value, LogRun(l, call, m).value;
            l.hw <= l'.last <= l'.hw && LogInv(l', m) && Rel(d', l', m)
  {
    RunRefinesFrom(d, l, call, m);
    StepRefines(d, l, call[0], m);
    var d1, l1 := Step(d, call[0]).value, LogStep(l, call[0], m).value;
    RunServes(d1, l1, call[1..], m, p, l.hw);
    var d', l' := Run(d, call).value, LogRun(l, call, m).value;
    assert Served(d', l', p, l.hw);
    assert ProcRel(d'.procs[p], l'.procs[p], m);
  }

  lemma CallAfter(d: Driver, l: Log, before: seq<Action>, call: seq<Action>, m: nat, p: nat)
    requires RingSize(m) && LogInv(l, m) && Rel(d, l, m) && NeverStale(l, before + call, m)
    requires IsCall(d, before, call, p)
    ensures ExactlyOnce(d, l, before, call, m)
  {
    NeverStalePrefix(l, before, call, m);
    RunRefinesFrom(d, l, before, m);
    RunAppend(d, before, call);
    LogRunAppend(l, before, call, m);
    CallFrom(Run(d, before).value, LogRun(l, before, m).value, call, m, p);
    var d2, l2 := Run(d, before + call).value, LogRun(l, before + call, m).value;
    ClaimedOnce(d2, l2, m);
    if AtRest(d2) {
      IdleMeansOnce(d2, l2, m);
    }
  }

  /** Exactly once, for every run from initialisation that is never stale and every call in it, however
      many others it overlaps. */
  lemma CallSignalsExactlyOnce(n: nat, numProcs: nat, d: Driver, l: Log, before: seq<Action>, call: seq<Action>, p: nat)
    requires 1 <= n <= 0x4000_0000 && InitRing(n, numProcs) == Some(d) && l == InitLog(numProcs)
    requires NeverStale(l, before + call, 2 * n) && IsCall(d, before, call, p)
    ensures ExactlyOnce(d, l, before, call, 2 * n)
  {
    InitRelated(n, numProcs, d, l);
    CallAfter(d, l, before, call, 2 * n, p);
  }

  /** The emitted count as the driver computes it from two 32-bit counters. */
  function CountEmitted(d: Driver): nat {
    (U32 - d.lastSeq % U32 + d.syncSeq) % U32
  }

  lemma WrappedDifference(a: nat, b: nat)
    requires a <= b < a + U32
    ensures (U32 - a % U32 % U32 + b % U32) % U32 == b - a
  {
    ModDifference(a, b, U32);
    var x := b % U32 - a % U32;
    assert (x + U32) % U32 == x % U32;
  }

  lemma CountEmittedExact(d: Driver, l: Log, m: nat)
    requires RingSize(m) && LogInv(l, m) && Rel(d, l, m)
    ensures CountEmitted(d) == l.emitted - l.last
  {
    Outstanding(l, m);
    var c := RingSizeDivides(m);
    WrappedDifference(l.last, l.emitted);
  }

  // --------------------------------------- a call that sleeps through 2^32 fences

  /** The total the hardware has advanced the fence memory by. */
  function HwTotal(acts: seq<Action>): nat {
    if acts == [] then 0
    else (if acts[0].HwWrite? then acts[0].n else 0) + HwTotal(acts[1..])
  }

  lemma {:induction false} RunAppend(d: Driver, xs: seq<Action>, ys: seq<Action>)
    requires Run(d, xs).Some?
    ensures Run(d, xs + ys) == Run(Run(d, xs).value, ys)
    decreases |xs|
  {
    if xs == [] {
      assert xs + ys == ys;
    } else {
      assert (xs + ys)[1..] == xs[1..] + ys;
      RunAppend(Step(d, xs[0]).value, xs[1..], ys);
    }
  }

  lemma StepHw(l: Log, a: Action, m: nat)
    requires |l.stage| == |l.signals| == l.emitted && LogStep(l, a, m).Some? && !a.ForceCompletion?
    ensures LogStep(l, a, m).value.hw == l.hw + if a.HwWrite? then a.n else 0
  {
  }

  /** Without a forced completion the log's fence memory is that total. */
  lemma {:induction false} HwIsTotal(l: Log, acts: seq<Action>, m: nat)
    requires m >= 1 && LogInv(l, m) && LogRun(l, acts, m).Some?
    requires forall i :: 0 <= i < |acts| ==> !acts[i].ForceCompletion?
    ensures LogRun(l, acts, m).value.hw == l.hw + HwTotal(acts)
    decreases |acts|
  {
    if acts != [] {
      LogStepKeepsInv(l, acts[0], m);
      StepHw(l, acts[0], m);
      assert forall i :: 0 <= i < |acts[1..]| ==> acts[1..][i] == acts[i + 1];
      HwIsTotal(LogStep(l, acts[0], m).value, acts[1..], m);
    }
  }

  /** In a run that is never stale, a signaled fence is one the hardware's
      writes have reached. */
  lemma SignaledAfterHardware(n: nat, numProcs: nat, acts: seq<Action>, i: nat)
    requires 1 <= n <= 0x4000_0000 && InitRing(n, numProcs).Some?
    requires NeverStale(InitLog(numProcs), acts, 2 * n)
    requires Run(InitRing(n, numProcs).value, acts).Some?
    requires forall j :: 0 <= j < |acts| ==> !acts[j].ForceCompletion?
    requires var d := Run(InitRing(n, numProcs).value, acts).value; i < |d.fences| && d.fences[i].signaled
    ensures i + 1 <= HwTotal(acts)
  {
    RunSafe(n, numProcs, acts);
    LogInit(numProcs, 2 * n);
    HwIsTotal(InitLog(numProcs), acts, 2 * n);
  }

  /** k fences emitted and signaled; call 0 stands at `pc`, call 1 is idle. */
  function Settled(k: nat, pc: ProcPc): Driver {
    Driver(1, k % U32, k % U32, k % U32, k % U32, [None, None],
           seq(k, i requires 0 <= i < k => Fence((i + 1) % U32, true)),
           EmitIdle, [pc, Idle], false)
  }

  /** One more fence is emitted and committed, not yet reached. */
  function Emitted(k: nat, pc: ProcPc): Driver {
    Settled(k, pc).(syncSeq := (k + 1) % U32, committed := (k + 1) % U32,
                    fences := Settled(k, pc).fences + [Fence((k + 1) % U32, false)],
                    slots := [None, None][(k + 1) % 2 := Some(k)])
  }

  const EmitOne: seq<Action> := [EmitBegin] + ([EmitCheck] + ([EmitStore] + ([EmitCommit] + [])))

  function ProcessOne(p: nat): seq<Action> {
    [ReadLast(p)] + ([ReadHw(p)] + ([CompareExchange(p)] + SweepOne(p)))
  }

  function SweepOne(p: nat): seq<Action> {
    [LoadSlot(p)] + ([ClearSlot(p)] + ([SignalFence(p)] + []))
  }

  lemma RunOne(d: Driver, a: Action, rest: seq<Action>)
    requires Step(d, a).Some?
    ensures Run(d, [a] + rest) == Run(Step(d, a).value, rest)
  {
    assert ([a] + rest)[1..] == rest;
  }

  lemma RunSweep(d0: Driver, d1: Driver, d2: Driver, d3: Driver, p: nat)
    requires Step(d0, LoadSlot(p)) == Some(d1) && Step(d1, ClearSlot(p)) == Some(d2)
    requires Step(d2, SignalFence(p)) == Some(d3)
    ensures Run(d0, SweepOne(p)) == Some(d3)
  {
    RunOne(d0, LoadSlot(p), [ClearSlot(p)] + ([SignalFence(p)] + []));
    RunOne(d1, ClearSlot(p), [SignalFence(p)] + []);
    RunOne(d2, SignalFence(p), []);
  }

  lemma MaskOne(x: nat)
    ensures And(x % U32, 1) == x % 2 && And(x % 2 + 1, 1) == (x + 1) % 2
  {
    MaskIsMod(x % U32, 1);
    MaskIsMod(x % 2 + 1, 1);
    assert U32 == 2 * 0x8000_0000;
    ModOfMod(x, 2, 0x8000_0000);
  }

  lemma EmitOneFence(k: nat, pc: ProcPc)
    ensures Run(Settled(k, pc), EmitOne) == Some(Emitted(k, pc))
  {
    MaskOne(k + 1);
    ModStep(k, 1, U32);
    var d0 := Settled(k, pc);
    var d1 := Step(d0, EmitBegin).value;
    var d2 := Step(d1, EmitCheck).value;
    var d3 := Step(d2, EmitStore).value;
    RunOne(d0, EmitBegin, [EmitCheck] + ([EmitStore] + ([EmitCommit] + [])));
    RunOne(d1, EmitCheck, [EmitStore] + ([EmitCommit] + []));
    RunOne(d2, EmitStore, [EmitCommit] + []);
    RunOne(d3, EmitCommit, []);
  }

  /** The hardware reaches the outstanding fence. */
  function Reached(k: nat, pc: ProcPc): Driver {
    Emitted(k, pc).(hwSeq := (k + 1) % U32)
  }

  lemma HwReaches(k: nat, pc: ProcPc)
    ensures Step(Emitted(k, pc), HwWrite(1)) == Some(Reached(k, pc))
  {
    ModDifference(k, k + 1, U32);
    ModStep(k, 1, U32);
  }

  lemma LoadOne(d: Driver, p: nat, cur: nat, slot: nat, f: nat)
    requires p < |d.procs| && d.procs[p] == Walk(cur, slot)
    requires And(cur + 1, d.mask) == slot < |d.slots| && d.slots[slot] == Some(f)
    ensures Step(d, LoadSlot(p)) == Some(d.(procs := d.procs[p := Loaded(slot, slot, Some(f))]))
  {
  }

  lemma ClearOne(d: Driver, p: nat, slot: nat, f: nat)
    requires p < |d.procs| && d.procs[p] == Loaded(slot, slot, Some(f)) && slot < |d.slots|
    ensures Step(d, ClearSlot(p)) ==
            Some(d.(slots := d.slots[slot := None], procs := d.procs[p := Cleared(slot, slot, Some(f))]))
  {
  }

  lemma SignalOne(d: Driver, p: nat, slot: nat, f: nat)
    requires p < |d.procs| && d.procs[p] == Cleared(slot, slot, Some(f))
    requires f < |d.fences| && !d.fences[f].signaled
    ensures Step(d, SignalFence(p)) ==
            Some(d.(procs := d.procs[p := Idle], fences := d.fences[f := d.fences[f].(signaled := true)]))
  {
  }

  /** A walk over one slot empties it and signals the fence it held. */
  lemma SweepOneFence(d: Driver, p: nat, cur: nat, slot: nat, f: nat)
    requires p < |d.procs| && d.procs[p] == Walk(cur, slot)
    requires And(cur + 1, d.mask) == slot < |d.slots| && d.slots[slot] == Some(f)
    requires f < |d.fences| && !d.fences[f].signaled
    ensures Run(d, SweepOne(p)) == Some(d.(slots := d.slots[slot := None], procs := d.procs[p := Idle],
                                           fences := d.fences[f := d.fences[f].(signaled := true)]))
  {
    LoadOne(d, p, cur, slot, f);
    var d1 := Step(d, LoadSlot(p)).value;
    ClearOne(d1, p, slot, f);
    var d2 := Step(d1, ClearSlot(p)).value;
    SignalOne(d2, p, slot, f);
    var d3 := Step(d2, SignalFence(p)).value;
    RunSweep(d, d1, d2, d3, p);
    assert d3.procs == d.procs[p := Idle];
  }

  lemma ExchangeOne(d: Driver, p: nat, last: nat, now: nat)
    requires p < |d.procs| && d.procs[p] == GotSeq(last, now) && d.lastSeq == last != now
    ensures Step(d, CompareExchange(p)) ==
            Some(d.(lastSeq := now, procs := d.procs[p := Walk(And(last, d.mask), And(now, d.mask))]))
  {
  }

  lemma ReadBoth(d: Driver, p: nat, rest: seq<Action>)
    requires p < |d.procs| && d.procs[p] == Idle
    ensures Run(d, [ReadLast(p)] + ([ReadHw(p)] + rest)) ==
            Run(d.(procs := d.procs[p := GotSeq(d.lastSeq, d.hwSeq)]), rest)
  {
    RunOne(d, ReadLast(p), [ReadHw(p)] + rest);
    var d1 := Step(d, ReadLast(p)).value;
    RunOne(d1, ReadHw(p), rest);
    assert d1.procs[p := GotSeq(d.lastSeq, d.hwSeq)] == d.procs[p := GotSeq(d.lastSeq, d.hwSeq)];
  }

  /** The outstanding fence claimed by call 1. */
  function ClaimedOne(k: nat, pc: ProcPc): Driver {
    Reached(k, pc).(lastSeq := (k + 1) % U32, procs := [pc, Walk(k % 2, (k + 1) % 2)])
  }

  lemma ClaimOneFence(k: nat, pc: ProcPc)
    ensures Run(Reached(k, pc), ProcessOne(1)) == Run(ClaimedOne(k, pc), SweepOne(1))
  {
    MaskOne(k);
    MaskOne(k + 1);
    if k % U32 == (k + 1) % U32 {
      ModInjective(k, k + 1, U32);
    }
    var d0 := Reached(k, pc);
    ReadBoth(d0, 1, [CompareExchange(1)] + SweepOne(1));
    var d1 := d0.(procs := [pc, GotSeq(k % U32, (k + 1) % U32)]);
    assert d1.procs == d0.procs[1 := GotSeq(k % U32, (k + 1) % U32)];
    RunOne(d1, CompareExchange(1), SweepOne(1));
    ExchangeOne(d1, 1, k % U32, (k + 1) % U32);
    assert ClaimedOne(k, pc).procs == d1.procs[1 := Walk(k % 2, (k + 1) % 2)];
  }

  lemma SignaledOne(k: nat, pc: ProcPc)
    ensures var fences := ClaimedOne(k, pc).fences;
            && |fences| == k + 1 && !fences[k].signaled
            && fences[k := fences[k].(signaled := true)] == Settled(k + 1, pc).fences
  {
  }

  lemma EmptiedOne(k: nat, pc: ProcPc)
    ensures var d := ClaimedOne(k, pc);
            && |d.slots| == 2 && d.slots[(k + 1) % 2] == Some(k) && d.slots[(k + 1) % 2 := None] == [None, None]
            && |d.procs| == 2 && d.procs[1] == Walk(k % 2, (k + 1) % 2) && d.procs[1 := Idle] == [pc, Idle]
  {
  }

  lemma ProcessOneFence(k: nat, pc: ProcPc)
    ensures Run(Reached(k, pc), ProcessOne(1)) == Some(Settled(k + 1, pc))
  {
    ClaimOneFence(k, pc);
    MaskOne(k);
    SignaledOne(k, pc);
    EmptiedOne(k, pc);
    SweepOneFence(ClaimedOne(k, pc), 1, k % 2, (k + 1) % 2, k);
  }

  /** Call 0 reads 0 and 1 while the first fence completes, then sleeps. */
  const Opening: seq<Action> := EmitOne + ([HwWrite(1)] + ([ReadLast(0)] + ([ReadHw(0)] + ProcessOne(1))))

  const AnotherFence: seq<Action> := EmitOne + ([HwWrite(1)] + ProcessOne(1))

  lemma EmitAndReach(k: nat, pc: ProcPc, rest: seq<Action>)
    ensures Run(Settled(k, pc), EmitOne + ([HwWrite(1)] + rest)) == Run(Reached(k, pc), rest)
  {
    EmitOneFence(k, pc);
    RunAppend(Settled(k, pc), EmitOne, [HwWrite(1)] + rest);
    HwReaches(k, pc);
    RunOne(Emitted(k, pc), HwWrite(1), rest);
  }

  lemma FallAsleep(k: nat, rest: seq<Action>)
    ensures Run(Reached(k, Idle), [ReadLast(0)] + ([ReadHw(0)] + rest)) ==
            Run(Reached(k, GotSeq(k % U32, (k + 1) % U32)), rest)
  {
    var pc := GotSeq(k % U32, (k + 1) % U32);
    ReadBoth(Reached(k, Idle), 0, rest);
    assert Reached(k, Idle).procs[0 := pc] == Reached(k, pc).procs;
  }

  lemma OpeningRun(k: nat)
    ensures Run(Settled(k, Idle), Opening) == Some(Settled(k + 1, GotSeq(k % U32, (k + 1) % U32)))
  {
    EmitAndReach(k, Idle, [ReadLast(0)] + ([ReadHw(0)] + ProcessOne(1)));
    FallAsleep(k, ProcessOne(1));
    ProcessOneFence(k, GotSeq(k % U32, (k + 1) % U32));
  }

  lemma {:induction false} HwTotalAppend(xs: seq<Action>, ys: seq<Action>)
    ensures HwTotal(xs + ys) == HwTotal(xs) + HwTotal(ys)
    decreases |xs|
  {
    if xs == [] {
      assert xs + ys == ys;
    } else {
      assert (xs + ys)[1..] == xs[1..] + ys;
      HwTotalAppend(xs[1..], ys);
    }
  }

  lemma HwTotalSkip(a: Action, rest: seq<Action>)
    requires !a.HwWrite?
    ensures HwTotal([a] + rest) == HwTotal(rest)
  {
    assert ([a] + rest)[1..] == rest;
  }

  lemma EmitTotal(rest: seq<Action>)
    ensures HwTotal(EmitOne + ([HwWrite(1)] + rest)) == 1 + HwTotal(rest)
  {
    NoHardware();
    HwTotalAppend(EmitOne, [HwWrite(1)] + rest);
    assert ([HwWrite(1)] + rest)[1..] == rest;
  }

  lemma OpeningTotals()
    ensures HwTotal(Opening) == 1
  {
    NoHardware();
    HwTotalSkip(ReadHw(0), ProcessOne(1));
    HwTotalSkip(ReadLast(0), [ReadHw(0)] + ProcessOne(1));
    EmitTotal([ReadLast(0)] + ([ReadHw(0)] + ProcessOne(1)));
  }

  lemma NoHardware()
    ensures HwTotal(EmitOne) == 0 && HwTotal(ProcessOne(1)) == 0
  {
    HwTotalZero(EmitOne);
    HwTotalZero(ProcessOne(1));
  }

  lemma {:induction false} HwTotalZero(acts: seq<Action>)
    requires forall i :: 0 <= i < |acts| ==> !acts[i].HwWrite?
    ensures HwTotal(acts) == 0
    decreases |acts|
  {
    if acts != [] {
      HwTotalZero(acts[1..]);
    }
  }

  lemma AnotherFenceRun(k: nat, pc: ProcPc)
    ensures Run(Settled(k, pc), AnotherFence) == Some(Settled(k + 1, pc)) && HwTotal(AnotherFence) == 1
  {
    EmitAndReach(k, pc, ProcessOne(1));
    ProcessOneFence(k, pc);
    NoHardware();
    EmitTotal(ProcessOne(1));
  }

  lemma GoToSleep(start: Driver, k: nat) returns (acts: seq<Action>)
    requires start == Settled(k, Idle)
    ensures Run(start, acts) == Some(Settled(k + 1, GotSeq(k % U32, (k + 1) % U32))) && HwTotal(acts) == 1
  {
    OpeningRun(k);
    OpeningTotals();
    acts := Opening;
  }

  /** While call 0 sleeps, any number of fences may come and go. */
  lemma {:induction false} SleepThrough(start: Driver, k: nat) returns (acts: seq<Action>)
    requires start == Settled(0, Idle) && k >= 1
    ensures Run(start, acts) == Some(Settled(k, GotSeq(0, 1))) && HwTotal(acts) == k
  {
    if k == 1 {
      acts := GoToSleep(start, k - 1);
    } else {
      var before := SleepThrough(start, k - 1);
      AnotherFenceRun(k - 1, GotSeq(0, 1));
      RunAppend(start, before, AnotherFence);
      HwTotalAppend(before, AnotherFence);
      acts := before + AnotherFence;
    }
  }

  /** The sleeper wakes with fence number 2^32 emitted and not yet reached. */
  lemma SleeperWakes()
    ensures var r := Run(Emitted(U32, GotSeq(0, 1)), [CompareExchange(0)] + SweepOne(0));
            r.Some? && |r.value.fences| == U32 + 1 && r.value.fences[U32].signaled
  {
    MaskOne(0);
    MaskOne(1);
    assert And(1, 1) == 1;
    var d0 := Emitted(U32, GotSeq(0, 1));
    assert U32 % 2 == 0 && U32 % U32 == 0;
    RunOne(d0, CompareExchange(0), SweepOne(0));
    ExchangeOne(d0, 0, 0, 1);
    var d1 := Step(d0, CompareExchange(0)).value;
    SweepOneFence(d1, 0, 0, 1, U32);
  }

  /** The promise does fail for a call that sleeps through 2^32 fences: its
      exchange succeeds on the wrapped value and it signals fence number 2^32,
      which needs a fence memory of 2^32 + 1, after writes of only 2^32. */
  lemma StaleCallSignalsEarly()
    ensures exists acts: seq<Action> :: EarlySignal(acts)
  {
    PowerOfTwoTest(1);
    assert InitRing(1, 2).value == Settled(0, Idle);
    var start := Settled(0, Idle);
    var before := SleepThrough(start, U32);
    EmitOneFence(U32, GotSeq(0, 1));
    SleeperWakes();
    var wake := [CompareExchange(0)] + SweepOne(0);
    RunAppend(start, before, EmitOne);
    RunAppend(start, before + EmitOne, wake);
    NoHardware();
    HwTotalZero(wake);
    HwTotalAppend(before, EmitOne);
    HwTotalAppend(before + EmitOne, wake);
    assert EarlySignal((before + EmitOne) + wake);
  }

  /** A run from initialisation, without forced completion, that signals a fence
      the hardware has not reached. */
  ghost predicate EarlySignal(acts: seq<Action>) {
    && InitRing(1, 2).Some?
    && Run(InitRing(1, 2).value, acts).Some?
    && var d := Run(InitRing(1, 2).value, acts).value;
       exists i :: 0 <= i < |d.fences| && d.fences[i].signaled && HwTotal(acts) < i + 1
  }
}
