/** The window of recent fences that a context keeps for each ring, against the full
    history of fences ever added. Handles start at 1; the slot of a handle is the
    handle masked by the window size. */
module CtxFences {
  import opened Wrappers
  import opened Bits

  datatype Lookup = Got(fence: nat) | NoFence | Einval

  /** Slot i of the window, for a ring whose next handle is next. */
  ghost predicate WindowAt(window: seq<Option<nat>>, history: seq<nat>, h: int)
    requires |window| >= 1 && h <= |history|
  {
    window[h % |window|] == if h >= 1 then Some(history[h - 1]) else None
  }

  /** The window holds exactly the last |window| handles, counting those before 1 as empty. */
  ghost predicate Window(window: seq<Option<nat>>, history: seq<nat>) {
    |window| >= 1 && forall h :: |history| - |window| < h <= |history| ==> WindowAt(window, history, h)
  }

  /** Everything that has fallen out of the window has signaled. */
  ghost predicate OldDone(size: nat, history: seq<nat>, done: set<nat>) {
    forall k :: 0 <= k < |history| - size ==> history[k] in done
  }

  /** The window after one more fence. */
  lemma WindowAdd(window: seq<Option<nat>>, history: seq<nat>, f: nat)
    requires Window(window, history)
    ensures var next := |history| + 1;
            Window(window[next % |window| := Some(f)], history + [f])
  {
    var n, next := |window|, |history| + 1;
    var w', hs := window[next % n := Some(f)], history + [f];
    forall h | |hs| - n < h <= |hs|
      ensures WindowAt(w', hs, h)
    {
      if h < next {
        assert WindowAt(window, history, h);
        if h % n == next % n {
          ModInjective(h, next, n);
          assert false;
        }
      }
    }
  }

  /** The slot of the next handle holds the handle that is about to fall out. */
  lemma NextSlot(window: seq<Option<nat>>, history: seq<nat>)
    requires Window(window, history)
    ensures var next := |history| + 1;
            window[next % |window|] == if next > |window| then Some(history[next - |window| - 1]) else None
  {
    var n, next := |window|, |history| + 1;
    assert WindowAt(window, history, next - n);
    ModStep(next - n, n, n);
    ModShift(next, n);
  }

  lemma ModShift(a: int, n: nat)
    requires n >= 1
    ensures (a - n) % n == a % n
  {
    ModUnique(a - n, n, a / n - 1, a % n);
  }

  lemma ModSmall(a: nat)
    requires a < U64
    ensures a % U64 == a
  {
  }

  /** A handle that is still in the window is found in its slot. */
  lemma InWindow(window: seq<Option<nat>>, history: seq<nat>, h: nat)
    requires Window(window, history) && |history| - |window| < h <= |history|
    ensures window[h % |window|] == if h >= 1 then Some(history[h - 1]) else None
  {
    assert WindowAt(window, history, h);
  }

  class CtxRing {
    const size: nat
    const slots: array<Option<nat>>
    var sequence: nat
    /** The fences that have signaled; only ever grows. */
    var done: set<nat>
    ghost var history: seq<nat>

    ghost predicate Valid()
      reads this, slots
    {
      && IsPow2(size) && size >= 4 && slots.Length == size
      && sequence == |history| + 1 && sequence + size <= U64
      && Window(slots[..], history)
      && OldDone(size, history, done)
    }

    /** gsgpu_ctx_init for one ring. */
    constructor (size: nat)
      requires IsPow2(size) && 4 <= size < U64
      ensures Valid() && fresh(slots) && history == [] && this.size == size && done == {}
    {
      this.size := size;
      slots := new Option<nat>[size](_ => None);
      sequence := 1;
      done := {};
      history := [];
      new;
      assert forall i :: 0 <= i < size ==> slots[..][i] == None;
    }

    /** seq & (gsgpu_sched_jobs - 1). */
    method SlotOf(seqno: nat) returns (i: nat)
      requires IsPow2(size) && size >= 4
      ensures i == seqno % size && i < size
    {
      ghost var k :| size == Pow2(k);
      MaskIsMod(seqno, k);
      i := And(seqno, size - 1);
    }

    /** The slot of the next handle is empty or its fence has signaled. */
    ghost predicate SlotFree()
      requires Valid()
      reads this, slots
    {
      sequence > size ==> history[sequence - size - 1] in done
    }

    /** Some fences signal. */
    method Signal(fs: set<nat>)
      requires Valid()
      modifies this`done
      ensures Valid() && done == old(done) + fs
    {
      done := done + fs;
    }

    /** gsgpu_ctx_wait_prev_fence: a wait that is not interrupted ends with the fence signaled. */
    method WaitPrevFence(interrupted: bool) returns (ok: bool)
      requires Valid()
      modifies this`done
      ensures Valid() && old(done) <= done
      ensures ok ==> SlotFree()
      ensures !ok ==> interrupted && done == old(done)
    {
      var i := SlotOf(sequence);
      NextSlot(slots[..], history);
      var other := slots[i];
      assert other == slots[..][i];
      if other.Some? {
        if interrupted {
          return false;
        }
        Signal({other.value});
      }
      ok := true;
    }

    /** gsgpu_ctx_add_fence. Its BUG_ON is the assertion on the old slot. */
    method AddFence(fence: nat) returns (handle: nat)
      requires Valid() && SlotFree() && sequence + 1 + size <= U64
      modifies this`sequence, this`history, slots
      ensures Valid() && handle == old(sequence) && history == old(history) + [fence]
    {
      var i := SlotOf(sequence);
      NextSlot(slots[..], history);
      var other := slots[i];
      assert other == slots[..][i];
      assert other.Some? ==> other.value in done;
      WindowAdd(slots[..], history, fence);
      slots[i] := Some(fence);
      assert slots[..] == old(slots[..])[i := Some(fence)];
      handle := sequence;
      sequence := sequence + 1;
      history := history + [fence];
      assert forall k :: 0 <= k < |history| - size ==> history[k] in done;
    }

    /** A submission under the context lock: the wait, any signals in between, the add. */
    method Submit(fence: nat, interrupted: bool, meanwhile: set<nat>) returns (handle: Option<nat>)
      requires Valid() && sequence + 1 + size <= U64
      modifies this, slots
      ensures Valid() && (handle.None? ==> interrupted && history == old(history))
      ensures handle.Some? ==> handle.value == |history| && history == old(history) + [fence]
    {
      var ok := WaitPrevFence(interrupted);
      Signal(meanwhile);
      if !ok {
        return None;
      }
      var h := AddFence(fence);
      handle := Some(h);
    }

    /** gsgpu_ctx_get_fence, for any 64-bit handle; the largest one means the latest. */
    method GetFence(handle: nat) returns (r: Lookup)
      requires Valid() && handle < U64
      ensures var h := if handle == U64 - 1 then |history| else handle;
              && (r.Einval? <==> h > |history|)
              && (r.Got? ==> 1 <= h <= |history| && r.fence == history[h - 1])
              && (r.NoFence? ==> h == 0 || history[h - 1] in done)
              && (r.NoFence? <==> h <= |history| && (h == 0 || h + size <= |history|))
    {
      var seqno := handle;
      if seqno == U64 - 1 {
        seqno := sequence - 1;
      }
      if seqno >= sequence {
        return Einval;
      }
      ModSmall(seqno + size);
      if (seqno + size) % U64 < sequence {
        return NoFence;
      }
      var i := SlotOf(seqno);
      InWindow(slots[..], history, seqno);
      assert slots[..][i] == slots[i];
      r := if slots[i].Some? then Got(slots[i].value) else NoFence;
    }
  }

  // ---- The window size ----

  function RoundUp(n: nat, k: nat): (r: nat)
    requires k <= 31
    decreases 31 - k
  {
    if k == 31 || Pow2(k) >= n then Pow2(k) else RoundUp(n, k + 1)
  }

  /** Storing a value in a C int. */
  function ToInt(x: nat): int {
    if x % U32 >= 0x8000_0000 then x % U32 - U32 else x % U32
  }

  predicate IsInt(n: int) {
    -0x8000_0000 <= n < 0x8000_0000
  }

  /** gsgpu_device_check_arguments, on the int that holds the module parameter. */
  function CheckedJobs(n: int): (r: int) {
    if n < 4 then 4
    else if And(n, n - 1) != 0 then ToInt(RoundUp(n, 0))
    else n
  }

  lemma {:induction false} RoundUpIs(n: nat, k: nat)
    requires k <= 31 && n <= Pow2(31) && (k > 0 ==> Pow2(k - 1) < n)
    ensures IsPow2(RoundUp(n, k)) && n <= RoundUp(n, k) <= Pow2(31) && (n >= 1 ==> RoundUp(n, k) < 2 * n)
    decreases 31 - k
  {
    if k < 31 {
      Pow2Increases(k, 31);
      if Pow2(k) < n {
        RoundUpIs(n, k + 1);
      }
    }
  }

  /** Between 2^30 and 2^31 there is no power of two. */
  lemma NoPow2Between(n: nat)
    requires Pow2(30) < n < Pow2(31)
    ensures !IsPow2(n)
  {
    if IsPow2(n) {
      var k: nat :| n == Pow2(k);
      if k < 30 {
        Pow2Increases(k, 30);
      } else if k > 31 {
        Pow2Increases(31, k);
      }
      assert false;
    }
  }

  lemma {:induction false} RoundUpTop(n: nat, k: nat)
    requires k <= 31 && Pow2(30) < n
    ensures RoundUp(n, k) == Pow2(31)
    decreases 31 - k
  {
    if k < 31 {
      if k < 30 {
        Pow2Increases(k, 30);
      }
      RoundUpTop(n, k + 1);
    }
  }

  /** The window size can be used: a power of two, at least 4 and at least as asked for. */
  ghost predicate Fits(n: int, size: int) {
    size >= 4 && size >= n && IsPow2(size)
  }

  /** The size that results fits exactly for requests up to 2^30; above, the rounded size does not
      fit an int and turns negative. It is less than twice the request when it had to grow. */
  lemma CheckedJobsFitIff(n: int)
    requires IsInt(n)
    ensures IsInt(CheckedJobs(n))
    ensures Fits(n, CheckedJobs(n)) <==> n <= 0x4000_0000
    ensures n > 0x4000_0000 ==> CheckedJobs(n) == -0x8000_0000
    ensures 4 <= n <= 0x4000_0000 ==> CheckedJobs(n) < 2 * n
  {
    Pow2Of30();
    if n < 4 {
      assert Pow2(2) == 4;
    } else {
      PowerOfTwoTest(n);
      if n > 0x4000_0000 {
        NoPow2Between(n);
        RoundUpTop(n, 0);
      } else {
        RoundUpFits(n);
      }
    }
  }

  lemma RoundUpFits(n: nat)
    requires 1 <= n <= 0x4000_0000
    ensures IsPow2(RoundUp(n, 0)) && n <= RoundUp(n, 0) < 2 * n && ToInt(RoundUp(n, 0)) == RoundUp(n, 0)
  {
    Pow2Of30();
    RoundUpIs(n, 0);
  }

  /** The first request that does not fit. */
  lemma TooManyJobs()
    ensures CheckedJobs(0x4000_0001) == -0x8000_0000 && !Fits(0x4000_0001, CheckedJobs(0x4000_0001))
  {
    CheckedJobsFitIff(0x4000_0001);
  }
}
