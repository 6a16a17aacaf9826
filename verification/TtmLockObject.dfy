/** The lock as the source keeps it: a counter and a word of flag bits, changed
    in place under the spinlock. Every method is the matching step of TtmLock. */
module TtmLockObject {
  import opened TtmLock

  const WritePending: bv8 := 1
  const VtPending: bv8 := 2
  const SuspendPending: bv8 := 4
  const VtLock: bv8 := 8
  const SuspendLock: bv8 := 16

  /** No bit outside the five is ever set. */
  predicate FlagWord(f: bv8) {
    f & 0xE0 == 0
  }

  class FlaggedLock {
    var rw: int
    var flags: bv8
    ghost var bug: bool

    ghost predicate Valid()
      reads this
    {
      FlagWord(flags)
    }

    ghost function View(): Lock
      reads this
    {
      Lock(rw, flags & WritePending != 0, flags & VtPending != 0, flags & SuspendPending != 0,
           flags & VtLock != 0, flags & SuspendLock != 0, bug)
    }

    constructor ()
      ensures Valid() && View() == Lock(0, false, false, false, false, false, false)
    {
      rw, flags, bug := 0, 0, false;
    }

    method ReadUnlock() returns (wake: bool)
      requires Valid()
      modifies this
      ensures Valid() && View() == Released(old(View()), Reader) && wake == ReleaseWakes(old(View()), Reader)
    {
      rw := rw - 1;
      wake := rw == 0;
    }

    method ReadLock() returns (locked: bool)
      requires Valid()
      modifies this
      ensures Valid() && View() == Attempted(old(View()), Reader) && locked == Grants(old(View()), Reader)
    {
      locked := false;
      if rw >= 0 && flags == 0 {
        rw := rw + 1;
        locked := true;
      }
    }

    /** done: the wait ends here, with the lock or without it. */
    method ReadTrylock() returns (locked: bool, done: bool)
      requires Valid()
      modifies this
      ensures Valid() && View() == Attempted(old(View()), TryReader) && locked == Grants(old(View()), TryReader)
      ensures done <==> locked || NoFlags(old(View()))
    {
      var block := true;
      locked := false;
      if rw >= 0 && flags == 0 {
        rw := rw + 1;
        block := false;
        locked := true;
      } else if flags == 0 {
        block := false;
      }
      done := !block;
    }

    method WriteUnlock()
      requires Valid()
      modifies this
      ensures Valid() && View() == Released(old(View()), Writer)
    {
      rw := 0;
    }

    method WriteLock() returns (locked: bool)
      requires Valid()
      modifies this
      ensures Valid() && View() == Attempted(old(View()), Writer) && locked == Grants(old(View()), Writer)
    {
      locked := false;
      if rw == 0 && flags & !WritePending == 0 {
        rw := -1;
        flags := flags & !WritePending;
        locked := true;
      } else {
        flags := flags | WritePending;
      }
    }

    method WithdrawWrite()
      requires Valid()
      modifies this
      ensures Valid() && View() == Withdrawn(old(View()), Writer)
    {
      flags := flags & !WritePending;
    }

    /** Reports an error exactly when the VT bit was clear. */
    method VtUnlock() returns (ok: bool)
      requires Valid()
      modifies this
      ensures Valid() && View() == Released(old(View()), Vt) && ok == old(View()).vt
    {
      ok := true;
      if flags & VtLock == 0 {
        ok := false;
        bug := true;
      }
      flags := flags & !VtLock;
    }

    method TakeVt() returns (locked: bool)
      requires Valid()
      modifies this
      ensures Valid() && View() == Attempted(old(View()), Vt) && locked == Grants(old(View()), Vt)
    {
      locked := false;
      if rw == 0 {
        flags := flags & !VtPending;
        flags := flags | VtLock;
        locked := true;
      } else {
        flags := flags | VtPending;
      }
    }

    method WithdrawVt()
      requires Valid()
      modifies this
      ensures Valid() && View() == Withdrawn(old(View()), Vt)
    {
      flags := flags & !VtPending;
    }

    method SuspendUnlock()
      requires Valid()
      modifies this
      ensures Valid() && View() == Released(old(View()), Suspend)
    {
      flags := flags & !SuspendLock;
    }

    method TakeSuspend() returns (locked: bool)
      requires Valid()
      modifies this
      ensures Valid() && View() == Attempted(old(View()), Suspend) && locked == Grants(old(View()), Suspend)
    {
      locked := false;
      if rw == 0 {
        flags := flags & !SuspendPending;
        flags := flags | SuspendLock;
        locked := true;
      } else {
        flags := flags | SuspendPending;
      }
    }
  }
}
