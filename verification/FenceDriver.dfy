/** The fence driver as the object it is: counters and a slot array updated in
    place.  Each method is tied to the steps of `FenceRing.Step`; `Process` is
    the whole processing routine, run without interference. */
module FenceDriverObject {
  import opened Bits
  import opened Wrappers
  import opened FenceRing
  import opened FenceRefinement
  import opened FenceRuns

  class FenceDriver {
    const mask: nat
    var syncSeq: nat
    var lastSeq: nat
    var hwSeq: nat
    var committed: nat
    const slots: array<Option<nat>>
    var fences: seq<Fence>
    var emit: EmitPc
    var bug: bool
    ghost var procs: seq<ProcPc>

    ghost function View(): Driver
      reads this, slots
    {
      Driver(mask, syncSeq, lastSeq, hwSeq, committed, slots[..], fences, emit, procs, bug)
    }

    /** Every slot index and fence reference the driver holds is in range. */
    ghost predicate Valid()
      reads this, slots
    {
      && RingSize(mask + 1) && slots.Length == mask + 1
      && (forall x :: 0 <= x < slots.Length && slots[x].Some? ==> slots[x].value < |fences|)
    }

    /** Every accepted submission count gives the model's initial state; from 1 to 2^30 it is a valid one. */
    constructor (numHwSubmission: nat, ghost numProcs: nat)
      requires numHwSubmission < U32 && InitRing(numHwSubmission, numProcs).Some?
      ensures InitRing(numHwSubmission, numProcs) == Some(View()) && fresh(slots)
      ensures 1 <= numHwSubmission <= 0x4000_0000 ==> Valid()
    {
      mask := (numHwSubmission * 2 - 1) % U32;
      syncSeq, lastSeq, hwSeq, committed := 0, 0, 0, 0;
      slots := new Option<nat>[numHwSubmission * 2 % U32](_ => None);
      fences, emit, bug := [], EmitIdle, false;
      procs := InitRing(numHwSubmission, numProcs).value.procs;
      new;
      assert slots[..] == InitRing(numHwSubmission, numProcs).value.slots;
      if 1 <= numHwSubmission <= 0x4000_0000 {
        InitSize(numHwSubmission, numProcs);
      }
    }

    /** Hands out the next sequence number and fence object. */
    method EmitBegin() returns (seqno: nat)
      requires Valid() && emit.EmitIdle?
      modifies this`syncSeq, this`fences, this`emit
      ensures Valid() && Step(old(View()), FenceRing.EmitBegin) == Some(View()) && seqno == syncSeq
    {
      syncSeq := (syncSeq + 1) % U32;
      fences := fences + [Fence(syncSeq, false)];
      emit := Begun;
      seqno := syncSeq;
    }

    /** Stores the new fence once its slot was found free. */
    method EmitStore()
      requires Valid() && emit.Ready? && fences != []
      modifies this`emit, slots
      ensures Valid() && Step(old(View()), FenceRing.EmitStore) == Some(View())
    {
      slots[And(syncSeq, mask)] := Some(|fences| - 1);
      emit := Stored;
      assert slots[..] == old(slots[..])[And(syncSeq, mask) := Some(|fences| - 1)];
    }

    /** How many slots a walk standing at `cur` still visits. */
    ghost function Ahead(cur: nat, target: nat): nat
      requires cur <= mask && target <= mask
    {
      if cur < target then target - cur else mask + 1 - (cur - target)
    }

    lemma AheadStep(cur: nat, target: nat)
      requires RingSize(mask + 1) && cur <= mask && target <= mask
      ensures var next := And(cur + 1, mask);
              next <= mask && (next == target || Ahead(next, target) == Ahead(cur, target) - 1)
    {
      var k: nat :| 1 <= k <= 31 && mask + 1 == Pow2(k);
      MaskIsMod(cur + 1, k);
      if cur == mask {
        ModUnique(cur + 1, mask + 1, 1, 0);
      } else {
        ModUnique(cur + 1, mask + 1, 0, cur + 1);
      }
    }

    /** Takes the fence out of a claimed slot. */
    method TakeSlot(cur: nat, target: nat, ghost p: nat) returns (next: nat, fence: Option<nat>, ghost mid: Driver)
      requires Valid() && cur <= mask && p < |procs| && procs[p] == Walk(cur, target)
      modifies this`procs, slots
      ensures Valid() && next == And(cur + 1, mask)
      ensures Step(old(View()), LoadSlot(p)) == Some(mid) && Step(mid, ClearSlot(p)) == Some(View())
      ensures |procs| == old(|procs|) && procs[p] == Cleared(next, target, fence)
      ensures fence.Some? ==> fence.value < |fences|
    {
      next := And(cur + 1, mask);
      fence := slots[next];
      procs := procs[p := Loaded(next, target, fence)];
      mid := View();
      slots[next] := None;
      procs := procs[p := Cleared(next, target, fence)];
      assert slots[..] == mid.slots[next := None];
    }

    method SignalTaken(next: nat, target: nat, fence: Option<nat>, ghost p: nat)
      requires Valid() && p < |procs| && procs[p] == Cleared(next, target, fence)
      requires fence.Some? ==> fence.value < |fences|
      modifies this`fences, this`bug, this`procs
      ensures Valid() && Step(old(View()), SignalFence(p)) == Some(View())
      ensures |procs| == old(|procs|) && procs[p] == if next == target then Idle else Walk(next, target)
    {
      if fence.Some? {
        bug := bug || fences[fence.value].signaled;
        fences := fences[fence.value := fences[fence.value].(signaled := true)];
      }
      procs := procs[p := if next == target then Idle else Walk(next, target)];
    }

    /** One visited slot: emptied, and its fence signaled. */
    method SweepSlot(cur: nat, target: nat, ghost p: nat) returns (next: nat)
      requires Valid() && cur <= mask && p < |procs| && procs[p] == Walk(cur, target)
      modifies this`fences, this`bug, this`procs, slots
      ensures Valid() && next == And(cur + 1, mask)
      ensures Run(old(View()), SweepOne(p)) == Some(View())
      ensures |procs| == old(|procs|) && procs[p] == if next == target then Idle else Walk(next, target)
    {
      ghost var d0 := View();
      var fence: Option<nat>;
      ghost var d1: Driver;
      next, fence, d1 := TakeSlot(cur, target, p);
      ghost var d2 := View();
      SignalTaken(next, target, fence, p);
      RunSweep(d0, d1, d2, View(), p);
    }

    /** Reads both counters and claims the range between them. */
    method Claim(ghost p: nat) returns (last: nat, now: nat, ghost acts: seq<Action>)
      requires Valid() && p < |procs| && procs[p].Idle?
      modifies this`lastSeq, this`procs
      ensures last == old(lastSeq) && now == hwSeq == lastSeq
      ensures Run(old(View()), acts) == Some(View())
      ensures |procs| == old(|procs|)
      ensures procs[p] == if now == last then Idle else Walk(And(last, mask), And(now, mask))
      ensures forall i :: 0 <= i < |acts| ==> Actor(acts[i]) == Some(p)
    {
      ghost var start := View();
      acts := [ReadLast(p)] + ([ReadHw(p)] + ([CompareExchange(p)] + []));
      last, now := lastSeq, hwSeq;
      procs := procs[p := GotSeq(last, now)];
      ghost var d := View();
      ReadBoth(start, p, [CompareExchange(p)] + []);
      RunOne(d, CompareExchange(p), []);
      lastSeq := now;
      procs := procs[p := if now == last then Idle else Walk(And(last, mask), And(now, mask))];
      assert Step(d, CompareExchange(p)) == Some(View());
    }

    /** Claims everything up to the fence memory and walks the claimed slots. */
    method Process(ghost p: nat) returns (ghost acts: seq<Action>)
      requires Valid() && p < |procs| && procs[p].Idle?
      modifies this`lastSeq, this`fences, this`bug, this`procs, slots
      ensures Valid() && lastSeq == hwSeq
      ensures Run(old(View()), acts) == Some(View())
      ensures |procs| == old(|procs|) && procs[p].Idle?
      ensures forall i :: 0 <= i < |acts| ==> Actor(acts[i]) == Some(p)
    {
      ghost var start := View();
      var last, now;
      last, now, acts := Claim(p);
      var cur: nat, target: nat := And(last, mask), And(now, mask);
      var more := now != last;
      while more
        invariant Valid() && lastSeq == hwSeq && cur <= mask && target <= mask
        invariant |procs| == old(|procs|)
        invariant procs[p] == if more then Walk(cur, target) else Idle
        invariant Run(start, acts) == Some(View())
        invariant forall i :: 0 <= i < |acts| ==> Actor(acts[i]) == Some(p)
        decreases if more then Ahead(cur, target) + 1 else 0
      {
        AheadStep(cur, target);
        cur := SweepSlot(cur, target, p);
        RunAppend(start, acts, SweepOne(p));
        acts := acts + SweepOne(p);
        more := cur != target;
      }
    }

    /** The number of fences handed out and not yet claimed. */
    method CountEmitted(ghost p: nat) returns (n: nat, ghost acts: seq<Action>)
      requires Valid() && p < |procs| && procs[p].Idle?
      modifies this`lastSeq, this`fences, this`bug, this`procs, slots
      ensures Valid() && Run(old(View()), acts) == Some(View())
      ensures n == FenceRuns.CountEmitted(View())
    {
      acts := Process(p);
      n := (U32 - lastSeq % U32 + syncSeq) % U32;
    }
  }
}
