/** The hardware fence ring of one ring buffer.

    The driver numbers fences with a wrapping 32-bit counter and keeps the
    unsignaled ones in a masked array of 2N slots.  One emitter races any number
    of callers of the processing routine, and the hardware writes sequence
    numbers into the fence memory.  `Step` is the driver, at the granularity of
    single memory operations.  `LogStep` is the same protocol over an unbounded
    log of fences, with no wrapping, no masking and no slots. */
module FenceRing {
  import opened Bits
  import opened Wrappers

  datatype Fence = Fence(seqno: nat, signaled: bool)

  /** Where a processing call stands; the slot indices are masked. */
  datatype ProcPc =
    | Idle
    | Retry                      // the exchange failed, and the call reads again
    | GotLast(last: nat)
    | GotSeq(last: nat, now: nat)
    | Walk(cur: nat, target: nat)
    | Loaded(cur: nat, target: nat, fence: Option<nat>)
    | Cleared(cur: nat, target: nat, fence: Option<nat>)

  /** Where the (single) emitter stands. */
  datatype EmitPc = EmitIdle | Begun | Waiting(prev: nat) | Ready | Stored

  datatype Driver = Driver(
    mask: nat,
    syncSeq: nat,                // last sequence number handed out
    lastSeq: nat,                // last sequence number claimed for signaling
    hwSeq: nat,                  // the fence memory
    committed: nat,              // last sequence number the hardware may write
    slots: seq<Option<nat>>,     // each slot names a fence object
    fences: seq<Fence>,          // every fence object ever allocated
    emit: EmitPc,
    procs: seq<ProcPc>,
    bug: bool)                   // a fence was signaled twice

  datatype Action =
    | EmitBegin | EmitCheck | EmitWake | EmitStore | EmitCommit
    | HwWrite(n: nat) | ForceCompletion
    | ReadLast(p: nat) | ReadHw(p: nat) | CompareExchange(p: nat)
    | LoadSlot(p: nat) | ClearSlot(p: nat) | SignalFence(p: nat)

  /** What the initialisation accepts: a zero or power-of-two submission count. */
  function InitRing(numHwSubmission: nat, numProcs: nat): (r: Option<Driver>)
    requires numHwSubmission < U32
  {
    if numHwSubmission != 0 && And(numHwSubmission, numHwSubmission - 1) != 0 then None
    else
      var size := numHwSubmission * 2 % U32;
      Some(Driver((numHwSubmission * 2 - 1) % U32, 0, 0, 0, 0, seq(size, _ => None), [],
                  EmitIdle, seq(numProcs, _ => Idle), false))
  }

  /** One atomic step of the driver; `None` when it is not enabled. */
  function Step(d: Driver, a: Action): Option<Driver> {
    match a
    case EmitBegin =>
      var seqno := (d.syncSeq + 1) % U32;
      if d.emit.EmitIdle?
      then Some(d.(syncSeq := seqno, fences := d.fences + [Fence(seqno, false)], emit := Begun))
      else None
    case EmitCheck =>
      var slot := And(d.syncSeq, d.mask);
      if !d.emit.Begun? || slot >= |d.slots| then None
      else (match d.slots[slot]
            case None => Some(d.(emit := Ready))
            case Some(prev) => Some(d.(emit := Waiting(prev))))
    case EmitWake =>
      if d.emit.Waiting? && d.emit.prev < |d.fences| && d.fences[d.emit.prev].signaled
      then Some(d.(emit := Ready))
      else None
    case EmitStore =>
      var slot := And(d.syncSeq, d.mask);
      if !d.emit.Ready? || slot >= |d.slots| || d.fences == [] then None
      else Some(d.(slots := d.slots[slot := Some(|d.fences| - 1)], emit := Stored))
    case EmitCommit =>
      if d.emit.Stored? then Some(d.(committed := d.syncSeq, emit := EmitIdle)) else None
    case HwWrite(n) =>
      // monotone, and never beyond what was committed to the ring buffer
      if n <= (d.committed - d.hwSeq) % U32 then Some(d.(hwSeq := (d.hwSeq + n) % U32)) else None
    case ForceCompletion =>
      if d.emit.EmitIdle? then Some(d.(hwSeq := d.syncSeq)) else None
    case ReadLast(p) =>
      if p < |d.procs| && (d.procs[p].Idle? || d.procs[p].Retry?)
      then Some(d.(procs := d.procs[p := GotLast(d.lastSeq)]))
      else None
    case ReadHw(p) =>
      if p < |d.procs| && d.procs[p].GotLast?
      then Some(d.(procs := d.procs[p := GotSeq(d.procs[p].last, d.hwSeq)]))
      else None
    case CompareExchange(p) =>
      if p >= |d.procs| || !d.procs[p].GotSeq? then None
      else
        var GotSeq(last, now) := d.procs[p];
        if d.lastSeq != last then Some(d.(procs := d.procs[p := Retry]))
        else if now == last then Some(d.(procs := d.procs[p := Idle]))
        else Some(d.(lastSeq := now,
                     procs := d.procs[p := Walk(And(last, d.mask), And(now, d.mask))]))
    case LoadSlot(p) =>
      if p >= |d.procs| || !d.procs[p].Walk? then None
      else
        var Walk(cur, target) := d.procs[p];
        var slot := And(cur + 1, d.mask);
        if slot >= |d.slots| then None
        else Some(d.(procs := d.procs[p := Loaded(slot, target, d.slots[slot])]))
    case ClearSlot(p) =>
      if p >= |d.procs| || !d.procs[p].Loaded? then None
      else
        var Loaded(cur, target, fence) := d.procs[p];
        if cur >= |d.slots| then None
        else Some(d.(slots := d.slots[cur := None], procs := d.procs[p := Cleared(cur, target, fence)]))
    case SignalFence(p) =>
      if p >= |d.procs| || !d.procs[p].Cleared? then None
      else
        var Cleared(cur, target, fence) := d.procs[p];
        var next := d.procs[p := if cur == target then Idle else Walk(cur, target)];
        if fence.None? then Some(d.(procs := next))
        else if fence.value >= |d.fences| then None
        else Some(d.(bug := d.bug || d.fences[fence.value].signaled,
                     fences := d.fences[fence.value := d.fences[fence.value].(signaled := true)],
                     procs := next))
  }

  // ---------------------------------------------------------------- the log

  /** The life of one fence: in the ring, claimed by a processing call, taken
      out of its slot by that call, signaled. */
  datatype Stage = Pending | Claimed(who: nat) | Taken(who: nat) | Signaled

  datatype LogPc =
    | LIdle
    | LRetry
    | LGotLast(last: nat)
    | LGotSeq(last: nat, now: nat)
    | LWalk(next: nat, end: nat)
    | LLoaded(next: nat, end: nat)
    | LCleared(next: nat, end: nat)

  /** Fence number i of the log is the one with unbounded sequence number i + 1. */
  datatype Log = Log(
    emitted: nat,
    committed: nat,
    hw: nat,
    last: nat,
    stage: seq<Stage>,
    signals: seq<nat>,
    emit: EmitPc,
    procs: seq<LogPc>)

  function InitLog(numProcs: nat): Log {
    Log(0, 0, 0, 0, [], [], EmitIdle, seq(numProcs, _ => LIdle))
  }

  predicate InRing(s: Stage) {
    s.Pending? || s.Claimed?
  }

  /** The protocol over the log; `m` fences may be outstanding. */
  function LogStep(l: Log, a: Action, m: nat): Option<Log>
    requires |l.stage| == |l.signals| == l.emitted
  {
    match a
    case EmitBegin =>
      if l.emit.EmitIdle?
      then Some(l.(emitted := l.emitted + 1, stage := l.stage + [Pending],
                   signals := l.signals + [0], emit := Begun))
      else None
    case EmitCheck =>
      if !l.emit.Begun? then None
      else if l.emitted > m && InRing(l.stage[l.emitted - 1 - m])
      then Some(l.(emit := Waiting(l.emitted - 1 - m)))
      else Some(l.(emit := Ready))
    case EmitWake =>
      if l.emit.Waiting? && l.emit.prev < l.emitted && l.stage[l.emit.prev].Signaled?
      then Some(l.(emit := Ready))
      else None
    case EmitStore =>
      if l.emit.Ready? then Some(l.(emit := Stored)) else None
    case EmitCommit =>
      if l.emit.Stored? then Some(l.(committed := l.emitted, emit := EmitIdle)) else None
    case HwWrite(n) =>
      if l.hw + n <= l.committed then Some(l.(hw := l.hw + n)) else None
    case ForceCompletion =>
      if l.emit.EmitIdle? then Some(l.(hw := l.emitted)) else None
    case ReadLast(p) =>
      if p < |l.procs| && (l.procs[p].LIdle? || l.procs[p].LRetry?)
      then Some(l.(procs := l.procs[p := LGotLast(l.last)]))
      else None
    case ReadHw(p) =>
      if p < |l.procs| && l.procs[p].LGotLast?
      then Some(l.(procs := l.procs[p := LGotSeq(l.procs[p].last, l.hw)]))
      else None
    case CompareExchange(p) =>
      if p >= |l.procs| || !l.procs[p].LGotSeq? then None
      else
        var LGotSeq(last, end) := l.procs[p];
        if l.last != last then Some(l.(procs := l.procs[p := LRetry]))
        else if end == last then Some(l.(procs := l.procs[p := LIdle]))
        else Some(l.(last := end,
                     stage := seq(l.emitted, i requires 0 <= i < l.emitted =>
                       if last <= i < end then Claimed(p) else l.stage[i]),
                     procs := l.procs[p := LWalk(last, end)]))
    case LoadSlot(p) =>
      if p < |l.procs| && l.procs[p].LWalk?
      then Some(l.(procs := l.procs[p := LLoaded(l.procs[p].next, l.procs[p].end)]))
      else None
    case ClearSlot(p) =>
      if p < |l.procs| && l.procs[p].LLoaded? && l.procs[p].next < l.emitted
      then Some(l.(stage := l.stage[l.procs[p].next := Taken(p)],
                   procs := l.procs[p := LCleared(l.procs[p].next, l.procs[p].end)]))
      else None
    case SignalFence(p) =>
      if p < |l.procs| && l.procs[p].LCleared? && l.procs[p].next < l.emitted
      then
        var LCleared(next, end) := l.procs[p];
        Some(l.(stage := l.stage[next := Signaled],
                signals := l.signals[next := l.signals[next] + 1],
                procs := l.procs[p := if next + 1 == end then LIdle else LWalk(next + 1, end)]))
      else None
  }

  /** The number of fences whose slot has been written. */
  function StoredCount(l: Log): int {
    if l.emit.EmitIdle? || l.emit.Stored? then l.emitted else l.emitted - 1
  }

  /** Fence i still has to be handled by a call standing at `pc`. */
  predicate Owes(pc: LogPc, i: nat, s: Stage, p: nat) {
    match pc
    case LWalk(n, e) => s == Claimed(p) && n <= i < e
    case LLoaded(n, e) => s == Claimed(p) && n <= i < e
    case LCleared(n, e) => if i == n then s == Taken(p) else s == Claimed(p) && n < i < e
    case _ => false
  }

  ghost predicate PcInv(l: Log, p: nat)
    requires p < |l.procs| && |l.stage| == l.emitted
  {
    match l.procs[p]
    case LIdle => true
    case LRetry => true
    case LGotLast(a) => a <= l.last
    case LGotSeq(a, h) => a <= h <= l.hw && a <= l.last
    case LWalk(n, e) => n < e <= l.last && e <= l.emitted && forall i :: n <= i < e ==> l.stage[i] == Claimed(p)
    case LLoaded(n, e) => n < e <= l.last && e <= l.emitted && forall i :: n <= i < e ==> l.stage[i] == Claimed(p)
    case LCleared(n, e) => n < e <= l.last && e <= l.emitted && l.stage[n] == Taken(p)
                           && forall i :: n < i < e ==> l.stage[i] == Claimed(p)
  }

  ghost predicate StageInv(l: Log, i: nat)
    requires i < l.emitted == |l.stage| == |l.signals|
  {
    && (l.stage[i].Pending? <==> l.last <= i)
    && l.signals[i] == (if l.stage[i].Signaled? then 1 else 0)
    && (l.stage[i].Claimed? || l.stage[i].Taken? ==>
          l.stage[i].who < |l.procs| && Owes(l.procs[l.stage[i].who], i, l.stage[i], l.stage[i].who))
  }

  ghost predicate WindowInv(l: Log, m: nat)
    requires l.emitted == |l.stage|
  {
    && (forall i :: 0 <= i < StoredCount(l) && InRing(l.stage[i]) ==>
          i + m >= StoredCount(l) && (l.emit.Ready? ==> i + m > StoredCount(l)))
    && (l.emit.Waiting? ==> l.emit.prev + m == StoredCount(l))
    && (forall p :: 0 <= p < |l.procs| && l.procs[p].LCleared? ==>
          l.procs[p].end <= l.procs[p].next + m)
  }

  ghost predicate LogInv(l: Log, m: nat) {
    && |l.stage| == |l.signals| == l.emitted
    && (l.emit.EmitIdle? ==> l.committed == l.emitted)
    && l.last <= l.hw <= l.committed <= StoredCount(l) <= l.emitted
    && (forall i :: 0 <= i < l.emitted ==> StageInv(l, i))
    && (forall p :: 0 <= p < |l.procs| ==> PcInv(l, p))
    && WindowInv(l, m)
  }

  lemma LogInit(numProcs: nat, m: nat)
    ensures LogInv(InitLog(numProcs), m)
  {
  }

  /** The processing call an action belongs to. */
  function Actor(a: Action): Option<nat> {
    match a
    case ReadLast(p) => Some(p)
    case ReadHw(p) => Some(p)
    case CompareExchange(p) => Some(p)
    case LoadSlot(p) => Some(p)
    case ClearSlot(p) => Some(p)
    case SignalFence(p) => Some(p)
    case _ => None
  }

  /** The bounds that the steps below need. */
  ghost predicate LogBounds(l: Log) {
    |l.stage| == |l.signals| == l.emitted && l.last <= l.hw <= l.committed <= StoredCount(l) <= l.emitted
  }

  /** The emitter and the hardware add fences and claim none. */
  lemma EmitterKeeps(l: Log, a: Action, m: nat)
    requires LogBounds(l) && LogStep(l, a, m).Some? && Actor(a).None?
    ensures var l' := LogStep(l, a, m).value;
            && l'.procs == l.procs && l'.last == l.last && l.hw <= l'.hw && |l'.stage| == |l'.signals| == l'.emitted
            && l.stage <= l'.stage && l.signals <= l'.signals
            && (forall i :: l.emitted <= i < l'.emitted ==> l'.stage[i] == Pending && l'.signals[i] == 0)
  {
  }

  lemma EmitterStage(l: Log, a: Action, m: nat, i: nat)
    requires LogBounds(l) && LogStep(l, a, m).Some? && Actor(a).None? && i < LogStep(l, a, m).value.emitted
    requires i < l.emitted ==> StageInv(l, i)
    ensures |LogStep(l, a, m).value.stage| == |LogStep(l, a, m).value.signals| == LogStep(l, a, m).value.emitted
    ensures StageInv(LogStep(l, a, m).value, i)
  {
    EmitterKeeps(l, a, m);
  }

  lemma ActorStage(l: Log, a: Action, m: nat, p: nat, i: nat)
    requires LogBounds(l) && LogStep(l, a, m).Some? && Actor(a) == Some(p) && p < |l.procs| && PcInv(l, p)
    requires i < l.emitted && StageInv(l, i)
    ensures |LogStep(l, a, m).value.stage| == |LogStep(l, a, m).value.signals| == LogStep(l, a, m).value.emitted == l.emitted
    ensures StageInv(LogStep(l, a, m).value, i)
  {
  }

  lemma LogStepKeepsStages(l: Log, a: Action, m: nat)
    requires LogInv(l, m) && LogStep(l, a, m).Some?
    ensures var l' := LogStep(l, a, m).value;
            && |l'.stage| == |l'.signals| == l'.emitted
            && forall i :: 0 <= i < l'.emitted ==> StageInv(l', i)
  {
    var l' := LogStep(l, a, m).value;
    if Actor(a).None? {
      EmitterKeeps(l, a, m);
      forall i | 0 <= i < l'.emitted
        ensures StageInv(l', i)
      {
        EmitterStage(l, a, m, i);
      }
    } else {
      assert PcInv(l, Actor(a).value);
      forall i | 0 <= i < l'.emitted
        ensures StageInv(l', i)
      {
        ActorStage(l, a, m, Actor(a).value, i);
      }
    }
  }

  /** What another call has claimed stays as it is. */
  lemma ActorLeaves(l: Log, a: Action, m: nat, q: nat, p: nat, i: nat)
    requires LogBounds(l) && LogStep(l, a, m).Some? && Actor(a) == Some(q) && q < |l.procs| && PcInv(l, q) && q != p
    requires i < l.emitted && StageInv(l, i) && (l.stage[i] == Claimed(p) || l.stage[i] == Taken(p))
    ensures var l' := LogStep(l, a, m).value; |l'.stage| == l'.emitted == l.emitted && l'.stage[i] == l.stage[i]
  {
  }

  lemma ActorFrame(l: Log, a: Action, m: nat, q: nat)
    requires LogBounds(l) && LogStep(l, a, m).Some? && Actor(a) == Some(q) && q < |l.procs| && PcInv(l, q)
    ensures var l' := LogStep(l, a, m).value;
            && |l'.stage| == l'.emitted == l.emitted && l'.hw == l.hw && l.last <= l'.last && |l'.procs| == |l.procs|
            && forall p :: 0 <= p < |l.procs| && p != q ==> l'.procs[p] == l.procs[p]
  {
  }

  /** A step leaves alone what the other processing calls have claimed. */
  lemma LogStepKeepsOther(l: Log, a: Action, m: nat, p: nat)
    requires LogInv(l, m) && LogStep(l, a, m).Some?
    requires p < |l.procs| && Actor(a) != Some(p)
    ensures var l' := LogStep(l, a, m).value;
            && |l'.stage| == l'.emitted && |l'.procs| == |l.procs|
            && PcInv(l', p)
  {
    var l' := LogStep(l, a, m).value;
    assert PcInv(l, p);
    if Actor(a).None? {
      EmitterKeeps(l, a, m);
    } else {
      var q := Actor(a).value;
      assert PcInv(l, q);
      ActorFrame(l, a, m, q);
      forall i | 0 <= i < l.emitted && (l.stage[i] == Claimed(p) || l.stage[i] == Taken(p))
        ensures l'.stage[i] == l.stage[i]
      {
        assert StageInv(l, i);
        ActorLeaves(l, a, m, q, p, i);
      }
    }
  }

  lemma LogStepKeepsActor(l: Log, a: Action, m: nat, p: nat)
    requires LogInv(l, m) && LogStep(l, a, m).Some?
    requires p < |l.procs| && Actor(a) == Some(p)
    ensures var l' := LogStep(l, a, m).value;
            && |l'.stage| == l'.emitted && |l'.procs| == |l.procs|
            && PcInv(l', p)
  {
    assert PcInv(l, p);
  }

  lemma LogStepKeepsPcs(l: Log, a: Action, m: nat)
    requires LogInv(l, m) && LogStep(l, a, m).Some?
    ensures var l' := LogStep(l, a, m).value;
            && |l'.stage| == l'.emitted && |l'.procs| == |l.procs|
            && forall p :: 0 <= p < |l'.procs| ==> PcInv(l', p)
  {
    forall p | 0 <= p < |l.procs|
      ensures var l' := LogStep(l, a, m).value;
              |l'.stage| == l'.emitted && |l'.procs| == |l.procs| && PcInv(l', p)
    {
      if Actor(a) == Some(p) {
        LogStepKeepsActor(l, a, m, p);
      } else {
        LogStepKeepsOther(l, a, m, p);
      }
    }
  }

  /** A fence in the ring after a step was in the ring before, or is the new one. */
  lemma InRingBefore(l: Log, a: Action, m: nat, i: nat)
    requires LogBounds(l) && LogStep(l, a, m).Some? && i < l.emitted && StageInv(l, i)
    requires Actor(a).Some? ==> Actor(a).value < |l.procs| && PcInv(l, Actor(a).value)
    requires i < |LogStep(l, a, m).value.stage| && InRing(LogStep(l, a, m).value.stage[i])
    ensures InRing(l.stage[i])
  {
  }

  lemma WindowStored(l: Log, a: Action, m: nat, i: nat)
    requires m >= 1 && LogBounds(l) && WindowInv(l, m) && LogStep(l, a, m).Some?
    requires var l' := LogStep(l, a, m).value; |l'.stage| == l'.emitted && i < StoredCount(l') <= l'.emitted
    requires i < StoredCount(l) ==> InRing(l.stage[i])
    ensures var l' := LogStep(l, a, m).value;
            i + m >= StoredCount(l') && (l'.emit.Ready? ==> i + m > StoredCount(l'))
  {
  }

  lemma WindowCleared(l: Log, a: Action, m: nat, p: nat)
    requires LogBounds(l) && WindowInv(l, m) && LogStep(l, a, m).Some? && p < |l.procs|
    requires p < |LogStep(l, a, m).value.procs| && LogStep(l, a, m).value.procs[p].LCleared? && PcInv(l, p)
    ensures LogStep(l, a, m).value.procs[p].end <= LogStep(l, a, m).value.procs[p].next + m
  {
    if !l.procs[p].LCleared? {
      assert InRing(l.stage[l.procs[p].next]);
    }
  }

  lemma WindowShape(l: Log, a: Action, m: nat)
    requires LogBounds(l) && WindowInv(l, m) && LogStep(l, a, m).Some?
    ensures var l' := LogStep(l, a, m).value;
            && |l'.stage| == l'.emitted && |l'.procs| == |l.procs| && 0 <= StoredCount(l') <= l'.emitted
            && StoredCount(l) <= StoredCount(l')
            && (l'.emit.Waiting? ==> l'.emit.prev + m == StoredCount(l'))
  {
  }

  lemma LogStepKeepsWindow(l: Log, a: Action, m: nat)
    requires m >= 1 && LogInv(l, m) && LogStep(l, a, m).Some?
    ensures var l' := LogStep(l, a, m).value;
            l'.emitted == |l'.stage| && WindowInv(l', m)
  {
    var l' := LogStep(l, a, m).value;
    WindowShape(l, a, m);
    assert Actor(a).Some? ==> PcInv(l, Actor(a).value);
    forall i | 0 <= i < StoredCount(l') && InRing(l'.stage[i])
      ensures i + m >= StoredCount(l') && (l'.emit.Ready? ==> i + m > StoredCount(l'))
    {
      if i < StoredCount(l) {
        assert StageInv(l, i);
        InRingBefore(l, a, m, i);
      }
      WindowStored(l, a, m, i);
    }
    forall p | 0 <= p < |l'.procs| && l'.procs[p].LCleared?
      ensures l'.procs[p].end <= l'.procs[p].next + m
    {
      assert PcInv(l, p);
      WindowCleared(l, a, m, p);
    }
  }

  /** Every step of the unbounded protocol keeps its invariant. */
  lemma LogStepKeepsInv(l: Log, a: Action, m: nat)
    requires m >= 1 && LogInv(l, m) && LogStep(l, a, m).Some?
    ensures LogInv(LogStep(l, a, m).value, m)
  {
    LogStepKeepsStages(l, a, m);
    LogStepKeepsPcs(l, a, m);
    LogStepKeepsWindow(l, a, m);
    match a
    case CompareExchange(p) => assert PcInv(l, p);
    case _ =>
  }
}
