/** The driver's 32-bit, masked fence ring refines the unbounded log. */
module FenceRefinement {
  import opened Bits
  import opened Wrappers
  import opened FenceRing

  /** Ring sizes the driver sets up: twice a power of two that fits 32 bits. */
  ghost predicate RingSize(m: nat) {
    exists k: nat :: 1 <= k <= 31 && m == Pow2(k)
  }

  lemma Pow2Split(k: nat, top: nat)
    requires 1 <= k < top
    ensures Pow2(k) * Pow2(top - k) == Pow2(top)
    ensures Pow2(k) >= 2 && Pow2(top - k) >= 2
  {
    Pow2Add(k, top - k);
    assert Pow2(k) == 2 * Pow2(k - 1) && Pow2(top - k) == 2 * Pow2(top - k - 1);
  }

  lemma HalfOfProduct(m: nat, c: nat, total: nat)
    requires c >= 2 && m * c == total
    ensures 2 * m <= total
  {
    assert m * c - 2 * m == m * (c - 2);
    assert m * (c - 2) >= 0;
  }

  lemma RingSizeDivides(m: nat) returns (c: nat)
    requires RingSize(m)
    ensures c >= 2 && m * c == U32 && 2 <= m <= U32 / 2
  {
    var k: nat :| 1 <= k <= 31 && m == Pow2(k);
    Pow2Of32();
    Pow2Split(k, 32);
    c := Pow2(32 - k);
    HalfOfProduct(m, c, U32);
  }

  /** The slot of an unbounded sequence number, computed from its low 32 bits. */
  lemma SlotOf(x: nat, m: nat)
    requires RingSize(m)
    ensures And(x % U32, m - 1) == x % m
  {
    var k: nat :| 1 <= k <= 31 && m == Pow2(k);
    MaskIsMod(x % U32, k);
    var c := RingSizeDivides(m);
    ModOfMod(x, m, c);
  }

  lemma SlotOfNext(x: nat, m: nat)
    requires RingSize(m)
    ensures And(x % m + 1, m - 1) == (x + 1) % m
  {
    var k: nat :| 1 <= k <= 31 && m == Pow2(k);
    MaskIsMod(x % m + 1, k);
    ModStep(x, 1, m);
  }

  ghost predicate ProcRel(pc: ProcPc, lpc: LogPc, m: nat)
    requires m >= 1
  {
    match lpc
    case LIdle => pc == Idle
    case LRetry => pc == Retry || pc == Idle   // a wrapped value may let the call end
    case LGotLast(a) => pc == GotLast(a % U32)
    case LGotSeq(a, h) => pc == GotSeq(a % U32, h % U32)
    case LWalk(n, e) => pc == Walk(n % m, e % m)
    case LLoaded(n, e) => pc == Loaded((n + 1) % m, e % m, Some(n))
    case LCleared(n, e) => pc == Cleared((n + 1) % m, e % m, Some(n))
  }

  ghost predicate FencesRel(d: Driver, l: Log)
    requires |l.stage| == l.emitted
  {
    && |d.fences| == l.emitted
    && forall i :: 0 <= i < l.emitted ==> d.fences[i] == Fence((i + 1) % U32, l.stage[i].Signaled?)
  }

  ghost predicate SlotsRel(d: Driver, l: Log, m: nat)
    requires |l.stage| == l.emitted && m >= 1
  {
    SlotsHold(d.slots, l.stage, StoredCount(l), m)
  }

  /** The slots hold exactly the stored fences that are in the ring, each where its number says. */
  ghost predicate SlotsHold(slots: seq<Option<nat>>, stage: seq<Stage>, stored: int, m: nat)
    requires m >= 1 && stored <= |stage|
  {
    && |slots| == m
    && (forall i :: 0 <= i < stored && InRing(stage[i]) ==> slots[(i + 1) % m] == Some(i))
    && (forall x :: 0 <= x < m && slots[x].Some? ==>
          slots[x].value < stored && InRing(stage[slots[x].value]) && (slots[x].value + 1) % m == x)
  }

  /** Storing the next fence in a slot that no fence in the ring uses. */
  lemma StoreHolds(slots: seq<Option<nat>>, stage: seq<Stage>, e: nat, m: nat, slot: nat)
    requires m >= 1 && e < |stage| && InRing(stage[e]) && SlotsHold(slots, stage, e, m) && slot == (e + 1) % m
    requires forall i :: 0 <= i < e && InRing(stage[i]) ==> (i + 1) % m != slot
    ensures SlotsHold(slots[slot := Some(e)], stage, e + 1, m)
  {
  }

  /** Emptying the slot of a fence that leaves the ring. */
  lemma ClearHolds(slots: seq<Option<nat>>, stage: seq<Stage>, stored: int, m: nat, n: nat, slot: nat, s: Stage)
    requires m >= 1 && n < stored <= |stage| && SlotsHold(slots, stage, stored, m) && slot == (n + 1) % m && !InRing(s)
    requires forall i :: 0 <= i < stored && i != n && InRing(stage[i]) ==> (i + 1) % m != slot
    ensures SlotsHold(slots[slot := None], stage[n := s], stored, m)
  {
  }

  ghost predicate CountersRel(d: Driver, l: Log, m: nat) {
    && d.mask == m - 1
    && d.syncSeq == l.emitted % U32
    && d.lastSeq == l.last % U32
    && d.hwSeq == l.hw % U32
    && d.committed == l.committed % U32
    && d.emit == l.emit
    && !d.bug
  }

  ghost predicate ProcsRel(d: Driver, l: Log, m: nat)
    requires m >= 1
  {
    && |d.procs| == |l.procs|
    && forall p :: 0 <= p < |l.procs| ==> ProcRel(d.procs[p], l.procs[p], m)
  }

  /** The driver state represents the log. */
  ghost predicate Rel(d: Driver, l: Log, m: nat) {
    && m >= 1 && |l.stage| == l.emitted
    && CountersRel(d, l, m) && FencesRel(d, l) && SlotsRel(d, l, m) && ProcsRel(d, l, m)
  }

  /** Processing call p has slept while exactly a multiple of 2^32 fences went
      by, and is about to claim a range it computed from the old values. */
  predicate Stale(l: Log, a: Action) {
    match a
    case CompareExchange(p) =>
      p < |l.procs| && l.procs[p].LGotSeq? &&
      l.last != l.procs[p].last && l.last % U32 == l.procs[p].last % U32 &&
      l.procs[p].now % U32 != l.procs[p].last % U32
    case _ => false
  }

  /** Fewer than 2^32 fences were claimed since the call read `last_seq`. */
  predicate Fresh(l: Log, a: Action) {
    match a
    case CompareExchange(p) =>
      p < |l.procs| && l.procs[p].LGotSeq? ==> l.last < l.procs[p].last + U32
    case _ => true
  }

  lemma FreshIsNotStale(l: Log, a: Action, m: nat)
    requires LogInv(l, m) && Fresh(l, a)
    ensures !Stale(l, a)
  {
    match a
    case CompareExchange(p) =>
      if p < |l.procs| && l.procs[p].LGotSeq? {
        assert PcInv(l, p);
        if l.last % U32 == l.procs[p].last % U32 {
          ModInjective(l.procs[p].last, l.last, U32);
        }
      }
    case _ =>
  }

  /** At most `m` fences are stored but not yet claimed. */
  lemma Outstanding(l: Log, m: nat)
    requires LogInv(l, m)
    ensures StoredCount(l) <= l.last + m
  {
    if l.last < StoredCount(l) {
      assert StageInv(l, l.last);
    }
  }

  /** Two fences in the ring never share a slot. */
  lemma SlotsDistinct(l: Log, m: nat, i: nat, j: nat)
    requires m >= 1 && LogInv(l, m)
    requires i < StoredCount(l) && j < StoredCount(l) && InRing(l.stage[i]) && InRing(l.stage[j])
    requires (i + 1) % m == (j + 1) % m
    ensures i == j
  {
    if i <= j {
      ModInjective(i + 1, j + 1, m);
    } else {
      ModInjective(j + 1, i + 1, m);
    }
  }

  /** Moving one call on both sides keeps the calls related. */
  lemma MoveCall(d: Driver, l: Log, p: nat, pc: ProcPc, lpc: LogPc, m: nat)
    requires m >= 1 && ProcsRel(d, l, m) && p < |l.procs| && ProcRel(pc, lpc, m)
    ensures |d.procs| == |l.procs|
    ensures ProcsRel(d.(procs := d.procs[p := pc]), l.(procs := l.procs[p := lpc]), m)
  {
  }

  lemma ProcsRelDepends(d: Driver, l: Log, d': Driver, l': Log, m: nat)
    requires m >= 1 && ProcsRel(d, l, m) && d'.procs == d.procs && l'.procs == l.procs
    ensures ProcsRel(d', l', m)
  {
  }

  /** A step of the driver and the same step of the log, side by side. */
  ghost predicate Matches(d: Driver, l: Log, a: Action, m: nat)
    requires |l.stage| == |l.signals| == l.emitted
  {
    && (Step(d, a).Some? <==> LogStep(l, a, m).Some?)
    && (Step(d, a).Some? ==> Rel(Step(d, a).value, LogStep(l, a, m).value, m))
  }

  lemma SimulateEmitBegin(d: Driver, l: Log, m: nat)
    requires RingSize(m) && LogInv(l, m) && Rel(d, l, m)
    ensures Matches(d, l, EmitBegin, m)
  {
    ModStep(l.emitted, 1, U32);
  }

  lemma OneTurnForward(x: nat, m: nat)
    requires m >= 1
    ensures (x + m) % m == x % m
  {
    ModUnique(x + m, m, x / m + 1, x % m);
  }

  /** The only earlier sequence number of the window in the same slot is m back. */
  lemma OneTurnBack(x: nat, y: nat, m: nat)
    requires m >= 1 && x < y <= x + m && x % m == y % m
    ensures x + m == y
  {
    OneTurnForward(x, m);
    ModInjective(y, x + m, m);
  }

  /** The slot of the next fence is occupied exactly when the fence m back has
      not left the ring, and then by that fence. */
  lemma NextSlot(d: Driver, l: Log, m: nat)
    requires RingSize(m) && 1 <= l.emitted == |l.stage| && l.emit.Begun? && WindowInv(l, m)
    requires CountersRel(d, l, m) && SlotsRel(d, l, m)
    ensures And(d.syncSeq, d.mask) < |d.slots|
    ensures d.slots[And(d.syncSeq, d.mask)] ==
            if l.emitted > m && InRing(l.stage[l.emitted - 1 - m]) then Some(l.emitted - 1 - m) else None
  {
    MaskedContent(d.slots, l.stage, l.emitted, m);
  }

  lemma MaskedContent(slots: seq<Option<nat>>, stage: seq<Stage>, e: nat, m: nat)
    requires RingSize(m) && 1 <= e == |stage| && SlotsHold(slots, stage, e - 1, m)
    requires forall i :: 0 <= i < e - 1 && InRing(stage[i]) ==> i + m >= e - 1
    ensures And(e % U32, m - 1) < |slots|
    ensures slots[And(e % U32, m - 1)] == if e > m && InRing(stage[e - 1 - m]) then Some(e - 1 - m) else None
  {
    SlotOf(e, m);
    SlotContent(slots, stage, e, m);
  }

  /** The slot of fence number e - 1 holds the fence one turn before it, if that is still in the ring. */
  lemma SlotContent(slots: seq<Option<nat>>, stage: seq<Stage>, e: nat, m: nat)
    requires m >= 1 && 1 <= e == |stage| && SlotsHold(slots, stage, e - 1, m)
    requires forall i :: 0 <= i < e - 1 && InRing(stage[i]) ==> i + m >= e - 1
    ensures e % m < |slots|
    ensures slots[e % m] == if e > m && InRing(stage[e - 1 - m]) then Some(e - 1 - m) else None
  {
    var slot := e % m;
    if slots[slot].Some? {
      OneTurnBack(slots[slot].value + 1, e, m);
    } else if e > m {
      OneTurnForward(e - m, m);
    }
  }

  lemma SimulateEmitCheck(d: Driver, l: Log, m: nat)
    requires RingSize(m) && LogInv(l, m) && Rel(d, l, m)
    ensures Matches(d, l, EmitCheck, m)
  {
    if l.emit.Begun? {
      NextSlot(d, l, m);
      var pc := if l.emitted > m && InRing(l.stage[l.emitted - 1 - m]) then Waiting(l.emitted - 1 - m) else Ready;
      EmitterMoves(d, l, m, pc);
      assert Step(d, EmitCheck) == Some(d.(emit := pc)) && LogStep(l, EmitCheck, m) == Some(l.(emit := pc));
    }
  }

  /** Moving the emitter, without storing a fence, keeps the states related. */
  lemma EmitterMoves(d: Driver, l: Log, m: nat, pc: EmitPc)
    requires Rel(d, l, m) && l.emit.Begun? && (pc.Waiting? || pc.Ready?) && 0 <= StoredCount(l) <= l.emitted
    ensures Rel(d.(emit := pc), l.(emit := pc), m)
  {
    ProcsRelDepends(d, l, d.(emit := pc), l.(emit := pc), m);
  }

  lemma SimulateEmitStore(d: Driver, l: Log, m: nat)
    requires RingSize(m) && LogInv(l, m) && Rel(d, l, m)
    ensures Matches(d, l, EmitStore, m)
  {
    if l.emit.Ready? {
      SlotOf(l.emitted, m);
      StoreSlots(d, l, m);
      MatchStore(d, l, m, l.emitted % m);
    }
  }

  /** The store, given that it leaves the slots as the log wants them. */
  lemma MatchStore(d: Driver, l: Log, m: nat, slot: nat)
    requires m >= 1 && |l.stage| == |l.signals| == l.emitted && l.emitted >= 1 && l.emit.Ready?
    requires CountersRel(d, l, m) && FencesRel(d, l) && ProcsRel(d, l, m)
    requires And(d.syncSeq, d.mask) == slot < |d.slots|
    requires SlotsHold(d.slots[slot := Some(l.emitted - 1)], l.stage, l.emitted, m)
    ensures Matches(d, l, EmitStore, m)
  {
    var d', l' := d.(slots := d.slots[slot := Some(l.emitted - 1)], emit := Stored), l.(emit := Stored);
    StoredRel(d, l, d', l', m);
    assert Step(d, EmitStore) == Some(d') && LogStep(l, EmitStore, m) == Some(l');
  }

  lemma StoredRel(d: Driver, l: Log, d': Driver, l': Log, m: nat)
    requires m >= 1 && |l.stage| == l.emitted && CountersRel(d, l, m) && FencesRel(d, l) && ProcsRel(d, l, m)
    requires d' == d.(slots := d'.slots, emit := Stored) && l' == l.(emit := Stored)
    requires SlotsHold(d'.slots, l.stage, l.emitted, m)
    ensures Rel(d', l', m)
  {
    ProcsRelDepends(d, l, d', l', m);
  }

  lemma StoreSlots(d: Driver, l: Log, m: nat)
    requires m >= 1 && LogInv(l, m) && SlotsRel(d, l, m) && l.emit.Ready?
    ensures l.emitted >= 1 && SlotsHold(d.slots[l.emitted % m := Some(l.emitted - 1)], l.stage, l.emitted, m)
  {
    assert StageInv(l, l.emitted - 1);
    FreeSlot(l, m);
    StoreHolds(d.slots, l.stage, l.emitted - 1, m, l.emitted % m);
  }

  /** Before a store, no stored fence in the ring uses the slot of the next one. */
  lemma FreeSlot(l: Log, m: nat)
    requires m >= 1 && LogInv(l, m) && l.emit.Ready?
    ensures forall i :: 0 <= i < l.emitted - 1 && InRing(l.stage[i]) ==> (i + 1) % m != l.emitted % m
  {
    forall i | 0 <= i < l.emitted - 1 && InRing(l.stage[i])
      ensures (i + 1) % m != l.emitted % m
    {
      if (i + 1) % m == l.emitted % m {
        ModInjective(i + 1, l.emitted, m);
        assert false;
      }
    }
  }

  lemma SimulateHwWrite(d: Driver, l: Log, n: nat, m: nat)
    requires RingSize(m) && LogInv(l, m) && Rel(d, l, m)
    ensures Matches(d, l, HwWrite(n), m)
  {
    WithinWrap(l, m);
    HwDistance(l.hw, l.committed, n);
    MatchHwWrite(d, l, m, n);
  }

  /** What is not claimed is less than a turn of the counter. */
  lemma WithinWrap(l: Log, m: nat)
    requires RingSize(m) && LogInv(l, m)
    ensures l.committed < l.last + U32
  {
    Outstanding(l, m);
    var c := RingSizeDivides(m);
    assert m <= m * c;
  }

  lemma MatchHwWrite(d: Driver, l: Log, m: nat, n: nat)
    requires Rel(d, l, m) && |l.signals| == l.emitted && 0 <= StoredCount(l) <= l.emitted
    requires n <= (d.committed - d.hwSeq) % U32 <==> l.hw + n <= l.committed
    requires (d.hwSeq + n) % U32 == (l.hw + n) % U32
    ensures Matches(d, l, HwWrite(n), m)
  {
    HwMoves(d, l, m, n);
  }

  /** How far the hardware may go, from the wrapped numbers, and where it then stands. */
  lemma HwDistance(hw: nat, committed: nat, n: nat)
    requires hw <= committed < hw + U32
    ensures n <= (committed % U32 - hw % U32) % U32 <==> hw + n <= committed
    ensures (hw % U32 + n) % U32 == (hw + n) % U32
  {
    ModDifference(hw, committed, U32);
    ModStep(hw, n, U32);
  }

  lemma HwMoves(d: Driver, l: Log, m: nat, n: nat)
    requires Rel(d, l, m) && 0 <= StoredCount(l) <= l.emitted
    ensures Rel(d.(hwSeq := (l.hw + n) % U32), l.(hw := l.hw + n), m)
  {
  }

  lemma SimulateEmitRest(d: Driver, l: Log, a: Action, m: nat)
    requires RingSize(m) && LogInv(l, m) && Rel(d, l, m)
    requires a.ForceCompletion? || a.EmitCommit? || a.EmitWake?
    ensures Matches(d, l, a, m)
  {
    if Step(d, a).Some? {
      var d', l' := Step(d, a).value, LogStep(l, a, m).value;
      assert CountersRel(d', l', m) && FencesRel(d', l') && SlotsRel(d', l', m) && ProcsRel(d', l', m);
    }
  }

  lemma SimulateRead(d: Driver, l: Log, a: Action, m: nat)
    requires RingSize(m) && LogInv(l, m) && Rel(d, l, m)
    requires a.ReadLast? || a.ReadHw?
    ensures Matches(d, l, a, m)
  {
    var p := a.p;
    if p < |l.procs| {
      assert ProcRel(d.procs[p], l.procs[p], m);
    }
  }

  /** The masked target is reached exactly at the end of the claimed range. */
  lemma EndOfWalk(n: nat, e: nat, m: nat)
    requires m >= 1 && n < e <= n + m
    ensures (n + 1) % m == e % m <==> n + 1 == e
  {
    if (n + 1) % m == e % m {
      ModInjective(n + 1, e, m);
    }
  }

  /** An exchange on the unwrapped value claims the same range on both sides. */
  lemma SimulateClaim(d: Driver, l: Log, p: nat, m: nat)
    requires RingSize(m) && LogInv(l, m) && Rel(d, l, m)
    requires p < |l.procs| && l.procs[p].LGotSeq? && l.last == l.procs[p].last != l.procs[p].now
    ensures Matches(d, l, CompareExchange(p), m)
  {
    assert ProcRel(d.procs[p], l.procs[p], m);
    assert PcInv(l, p);
    var LGotSeq(a, h) := l.procs[p];
    Outstanding(l, m);
    var c := RingSizeDivides(m);
    if a % U32 == h % U32 {
      ModInjective(a, h, U32);
    }
    SlotOf(a, m);
    SlotOf(h, m);
    var d', l' := Step(d, CompareExchange(p)).value, LogStep(l, CompareExchange(p), m).value;
    ClaimKeepsRing(l, p, m);
    assert CountersRel(d', l', m);
    assert FencesRel(d', l') && SlotsRel(d', l', m);
    assert ProcRel(d'.procs[p], l'.procs[p], m);
    assert ProcsRel(d', l', m);
  }

  lemma ClaimKeepsRing(l: Log, p: nat, m: nat)
    requires LogInv(l, m)
    requires p < |l.procs| && l.procs[p].LGotSeq? && l.last == l.procs[p].last != l.procs[p].now
    ensures var l' := LogStep(l, CompareExchange(p), m).value;
            && |l'.stage| == l'.emitted == l.emitted && StoredCount(l') == StoredCount(l)
            && forall i :: 0 <= i < l.emitted ==>
                 InRing(l'.stage[i]) == InRing(l.stage[i]) && l'.stage[i].Signaled? == l.stage[i].Signaled?
  {
    var l' := LogStep(l, CompareExchange(p), m).value;
    forall i | 0 <= i < l.emitted
      ensures InRing(l'.stage[i]) == InRing(l.stage[i]) && l'.stage[i].Signaled? == l.stage[i].Signaled?
    {
      assert StageInv(l, i);
    }
  }

  /** The exchange either fails on both sides or claims the same range on both,
      unless the call is stale. */
  lemma SimulateExchange(d: Driver, l: Log, p: nat, m: nat)
    requires RingSize(m) && LogInv(l, m) && Rel(d, l, m)
    requires !Stale(l, CompareExchange(p))
    ensures Matches(d, l, CompareExchange(p), m)
  {
    if p < |l.procs| {
      assert ProcRel(d.procs[p], l.procs[p], m);
      if l.procs[p].LGotSeq? {
        if l.last == l.procs[p].last != l.procs[p].now {
          SimulateClaim(d, l, p, m);
        } else {
          var d', l' := Step(d, CompareExchange(p)).value, LogStep(l, CompareExchange(p), m).value;
          CallMoves(d, l, m, p, d'.procs[p], l'.procs[p]);
        }
      }
    }
  }

  /** A walking call finds its next fence in the slot it looks at. */
  lemma LoadFindsFence(d: Driver, l: Log, p: nat, m: nat)
    requires RingSize(m) && LogInv(l, m) && Rel(d, l, m)
    requires p < |l.procs| && l.procs[p].LWalk?
    ensures d.procs[p] == Walk(l.procs[p].next % m, l.procs[p].end % m)
    ensures And(d.procs[p].cur + 1, d.mask) == (l.procs[p].next + 1) % m < |d.slots|
    ensures d.slots[(l.procs[p].next + 1) % m] == Some(l.procs[p].next)
  {
    assert ProcRel(d.procs[p], l.procs[p], m);
    assert PcInv(l, p);
    SlotOfNext(l.procs[p].next, m);
  }

  lemma SimulateLoad(d: Driver, l: Log, p: nat, m: nat)
    requires RingSize(m) && LogInv(l, m) && Rel(d, l, m)
    ensures Matches(d, l, LoadSlot(p), m)
  {
    if p < |l.procs| {
      assert ProcRel(d.procs[p], l.procs[p], m);
      if l.procs[p].LWalk? {
        LoadFindsFence(d, l, p, m);
        var d', l' := Step(d, LoadSlot(p)).value, LogStep(l, LoadSlot(p), m).value;
        CallMoves(d, l, m, p, d'.procs[p], l'.procs[p]);
      }
    }
  }

  /** Moving one call on both sides to related points keeps the states related. */
  lemma CallMoves(d: Driver, l: Log, m: nat, p: nat, pc: ProcPc, lpc: LogPc)
    requires Rel(d, l, m) && p < |l.procs| && ProcRel(pc, lpc, m) && 0 <= StoredCount(l) <= l.emitted
    ensures Rel(d.(procs := d.procs[p := pc]), l.(procs := l.procs[p := lpc]), m)
  {
  }

  /** No other fence in the ring uses the slot of fence n. */
  lemma OwnSlot(l: Log, m: nat, n: nat)
    requires m >= 1 && LogInv(l, m) && n < StoredCount(l) && InRing(l.stage[n])
    ensures forall i :: 0 <= i < StoredCount(l) && i != n && InRing(l.stage[i]) ==> (i + 1) % m != (n + 1) % m
  {
    forall i | 0 <= i < StoredCount(l) && i != n && InRing(l.stage[i])
      ensures (i + 1) % m != (n + 1) % m
    {
      if (i + 1) % m == (n + 1) % m {
        SlotsDistinct(l, m, i, n);
        assert false;
      }
    }
  }

  /** Emptying the slot of a claimed fence leaves every other fence in its slot. */
  lemma ClearKeepsSlots(d: Driver, l: Log, p: nat, m: nat)
    requires RingSize(m) && LogInv(l, m) && Rel(d, l, m)
    requires p < |l.procs| && l.procs[p].LLoaded?
    ensures d.procs[p].Loaded? && d.procs[p].cur == (l.procs[p].next + 1) % m
    ensures var n := l.procs[p].next;
            n < l.emitted &&
            SlotsRel(d.(slots := d.slots[(n + 1) % m := None]), l.(stage := l.stage[n := Taken(p)]), m)
  {
    assert ProcRel(d.procs[p], l.procs[p], m);
    assert PcInv(l, p);
    var n := l.procs[p].next;
    OwnSlot(l, m, n);
    ClearHolds(d.slots, l.stage, StoredCount(l), m, n, (n + 1) % m, Taken(p));
  }

  lemma SimulateClear(d: Driver, l: Log, p: nat, m: nat)
    requires RingSize(m) && LogInv(l, m) && Rel(d, l, m)
    ensures Matches(d, l, ClearSlot(p), m)
  {
    if p < |l.procs| {
      assert ProcRel(d.procs[p], l.procs[p], m);
      if l.procs[p].LLoaded? {
        ClearKeepsSlots(d, l, p, m);
        assert PcInv(l, p);
        MatchClear(d, l, m, p);
      }
    }
  }

  /** Taking a fence out, given that it leaves the slots as the log wants them. */
  lemma MatchClear(d: Driver, l: Log, m: nat, p: nat)
    requires m >= 1 && |l.stage| == |l.signals| == l.emitted && 0 <= StoredCount(l) <= l.emitted
    requires CountersRel(d, l, m) && FencesRel(d, l) && ProcsRel(d, l, m)
    requires p < |l.procs| && l.procs[p].LLoaded? && l.procs[p].next < l.emitted && l.stage[l.procs[p].next].Claimed?
    requires var n := l.procs[p].next;
             (n + 1) % m < |d.slots|
             && SlotsRel(d.(slots := d.slots[(n + 1) % m := None]), l.(stage := l.stage[n := Taken(p)]), m)
    ensures Matches(d, l, ClearSlot(p), m)
  {
    assert ProcRel(d.procs[p], l.procs[p], m);
    var d', l' := Step(d, ClearSlot(p)).value, LogStep(l, ClearSlot(p), m).value;
    var n, e := l.procs[p].next, l.procs[p].end;
    MoveCall(d, l, p, Cleared((n + 1) % m, e % m, Some(n)), LCleared(n, e), m);
    ProcsRelDepends(d.(procs := d'.procs), l.(procs := l'.procs), d', l', m);
    assert CountersRel(d', l', m) && FencesRel(d', l') && SlotsRel(d', l', m);
  }

  lemma SimulateSignal(d: Driver, l: Log, p: nat, m: nat)
    requires RingSize(m) && LogInv(l, m) && Rel(d, l, m)
    ensures Matches(d, l, SignalFence(p), m)
  {
    if p < |l.procs| {
      assert ProcRel(d.procs[p], l.procs[p], m);
      if l.procs[p].LCleared? {
        assert PcInv(l, p);
        MatchSignal(d, l, m, p);
      }
    }
  }

  /** Signaling a fence that is out of its slot changes nothing for the slots. */
  lemma MatchSignal(d: Driver, l: Log, m: nat, p: nat)
    requires m >= 1 && |l.stage| == |l.signals| == l.emitted && 0 <= StoredCount(l) <= l.emitted && Rel(d, l, m)
    requires p < |l.procs| && l.procs[p].LCleared?
    requires var LCleared(n, e) := l.procs[p]; n < l.emitted && l.stage[n] == Taken(p) && n < e <= n + m
    ensures Matches(d, l, SignalFence(p), m)
  {
    assert ProcRel(d.procs[p], l.procs[p], m);
    var LCleared(n, e) := l.procs[p];
    EndOfWalk(n, e, m);
    var d', l' := Step(d, SignalFence(p)).value, LogStep(l, SignalFence(p), m).value;
    MoveCall(d, l, p, d'.procs[p], l'.procs[p], m);
    ProcsRelDepends(d.(procs := d'.procs), l.(procs := l'.procs), d', l', m);
    SlotsHoldSame(d.slots, l.stage, l'.stage, StoredCount(l), m);
    assert CountersRel(d', l', m) && FencesRel(d', l');
  }

  lemma SlotsHoldSame(slots: seq<Option<nat>>, stage: seq<Stage>, stage': seq<Stage>, stored: int, m: nat)
    requires m >= 1 && stored <= |stage| == |stage'| && SlotsHold(slots, stage, stored, m)
    requires forall i :: 0 <= i < |stage| ==> InRing(stage'[i]) == InRing(stage[i])
    ensures SlotsHold(slots, stage', stored, m)
  {
  }

  /** One driver step that is not a stale exchange is one log step: enabled
      together, and leading to related states. */
  lemma StepRefines(d: Driver, l: Log, a: Action, m: nat)
    requires RingSize(m) && LogInv(l, m) && Rel(d, l, m) && !Stale(l, a)
    ensures Matches(d, l, a, m)
    ensures Step(d, a).Some? ==> LogInv(LogStep(l, a, m).value, m)
  {
    match a {
      case EmitBegin => SimulateEmitBegin(d, l, m);
      case EmitCheck => SimulateEmitCheck(d, l, m);
      case EmitStore => SimulateEmitStore(d, l, m);
      case ReadLast(_) => SimulateRead(d, l, a, m);
      case ReadHw(_) => SimulateRead(d, l, a, m);
      case CompareExchange(p) => SimulateExchange(d, l, p, m);
      case LoadSlot(p) => SimulateLoad(d, l, p, m);
      case ClearSlot(p) => SimulateClear(d, l, p, m);
      case SignalFence(p) => SimulateSignal(d, l, p, m);
      case HwWrite(n) => SimulateHwWrite(d, l, n, m);
      case _ => SimulateEmitRest(d, l, a, m);
    }
    if Step(d, a).Some? {
      LogStepKeepsInv(l, a, m);
    }
  }

  /** The exact condition for the exchange: it is one step of the log if and
      only if the caller has not slept through a multiple of 2^32 fences. */
  lemma ExchangeRefinesIff(d: Driver, l: Log, p: nat, m: nat)
    requires RingSize(m) && LogInv(l, m) && Rel(d, l, m)
    ensures Matches(d, l, CompareExchange(p), m) <==> !Stale(l, CompareExchange(p))
  {
    if Stale(l, CompareExchange(p)) {
      assert ProcRel(d.procs[p], l.procs[p], m);
      assert PcInv(l, p);
      var LGotSeq(a, h) := l.procs[p];
      var d', l' := Step(d, CompareExchange(p)).value, LogStep(l, CompareExchange(p), m).value;
      assert l'.procs[p] == LRetry;
      assert d'.procs[p].Walk? && !ProcRel(d'.procs[p], l'.procs[p], m);
    } else {
      SimulateExchange(d, l, p, m);
    }
  }
}
