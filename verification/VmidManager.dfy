/** The VMID manager's calls, updating the ids and the list in place. */
module VmidManager {
  import opened Wrappers
  import opened Vmid

  class Manager {
    var ids: seq<Id>
    var lru: seq<nat>
    var reserved: map<nat, nat>
    var reservedNum: int

    ghost function View(): State
      reads this
    {
      State(ids, lru, reserved, reservedNum)
    }

    /** gsgpu_vmid_mgr_init: every id but 0 on the list, in order. */
    constructor (n: nat)
      requires n >= 2
      ensures Init(View()) && Placed(View()) && |ids| == n
    {
      ids := seq(n, _ => Id(0, 0, None, None));
      lru, reserved, reservedNum := [], map[], 0;
      new;
      var i := 1;
      while i < n
        invariant 1 <= i <= n && |lru| == i - 1 && reserved == map[] && reservedNum == 0
        invariant |ids| == n && forall j :: 0 <= j < n ==> ids[j] == Id(0, 0, None, None)
        invariant forall k :: 0 <= k < |lru| ==> lru[k] == k + 1
      {
        ids := ids[i := ids[i].(owner := 0)];
        lru := lru + [i];
        i := i + 1;
      }
      InitPlaced(View());
    }

    /** The walk of gsgpu_vmid_grab_idle from the head. */
    method FindIdle(idle: set<nat>) returns (k: nat)
      ensures k == FirstIdle(lru, idle, 0)
    {
      k := 0;
      while k < |lru| && lru[k] !in idle
        invariant 0 <= k <= |lru| && FirstIdle(lru, idle, k) == FirstIdle(lru, idle, 0)
      {
        k := k + 1;
      }
    }

    /** The backward walk of gsgpu_vmid_grab_used. */
    method FindMatch(q: Request) returns (r: Option<nat>)
      requires InRange(View())
      ensures r == LastMatch(View(), q, |lru|)
    {
      var k := |lru|;
      while k > 0
        invariant 0 <= k <= |lru| && LastMatch(View(), q, k) == LastMatch(View(), q, |lru|)
      {
        k := k - 1;
        var id := ids[lru[k]];
        if id.owner != q.vm {
          continue;
        }
        if id.pd != q.pd {
          continue;
        }
        return Some(k);
      }
      r := None;
    }

    method TakeReserved(q: Request, i: nat) returns (r: Result)
      requires i < |ids|
      modifies this
      ensures (View(), r) == GrabReserved(old(View()), q, i)
    {
      var id := ids[i];
      var updates := q.updates;
      var flush := q.cpuUpdate;
      if updates.Some? && id.flushed.Some? && updates.value.context == id.flushed.value.context
         && !IsLater(updates.value, id.flushed.value) {
        updates := None;
      }
      if id.owner != q.vm || q.pd != id.pd || updates.Some? || !Usable(id.lastFlush, q) {
        ids := ids[i := id.(pd := 0)];
        if i !in q.idle {
          return if q.syncRoom then Later else NoMemory;
        }
        flush := true;
      }
      if !q.syncRoom {
        return NoMemory;
      }
      id := ids[i];
      if updates.Some? {
        id := id.(flushed := updates);
      }
      ids := ids[i := Assigned(id, q, flush)];
      assert ids == old(ids)[i := Assigned(id, q, flush)];
      r := Granted(i, flush);
    }

    method TakeUsed(q: Request, k: nat) returns (r: Result)
      requires k < |lru| && lru[k] < |ids|
      modifies this
      ensures (View(), r) == GrabUsed(old(View()), q, k)
    {
      var i := lru[k];
      var id := ids[i];
      var flush := q.cpuUpdate;
      if !Usable(id.lastFlush, q) {
        flush := true;
      }
      if UsedNeedsUpdate(id, q) {
        flush := true;
      }
      if !q.syncRoom {
        return NoMemory;
      }
      if UsedNeedsUpdate(id, q) {
        id := id.(flushed := q.updates);
      }
      lru := ToTail(lru, k);
      ids := ids[i := Assigned(id, q, flush)];
      r := Granted(i, flush);
    }

    /** gsgpu_vmid_grab. */
    method Grab(q: Request) returns (r: Result)
      requires Placed(View())
      modifies this
      ensures (View(), r) == Vmid.Grab(old(View()), q) && Placed(View())
    {
      GrabKeepsPlaces(View(), q);
      if q.waiting {
        return if q.room then Later else NoMemory;
      }
      if !q.room {
        return NoMemory;
      }
      var idle := FindIdle(q.idle);
      if idle == |lru| {
        return if q.syncRoom then Later else NoMemory;
      }
      if q.vm in reserved {
        r := TakeReserved(q, reserved[q.vm]);
        return;
      }
      var used := FindMatch(q);
      if used.Some? {
        r := TakeUsed(q, used.value);
      } else {
        if !q.syncRoom {
          return NoMemory;
        }
        var i := lru[idle];
        lru := ToTail(lru, idle);
        ids := ids[i := Assigned(ids[i].(flushed := q.updates), q, true)];
        r := Granted(i, true);
      }
    }

    /** gsgpu_vmid_alloc_reserved; the list is never empty where its head is taken. */
    method AllocReserved(vm: nat) returns (ok: bool)
      requires Placed(View())
      modifies this
      ensures (View(), ok) == Vmid.AllocReserved(old(View()), vm) && Placed(View())
    {
      AllocKeepsPlaces(View(), vm);
      if vm in reserved {
        return true;
      }
      reservedNum := reservedNum + 1;
      if reservedNum > MaxReserved {
        reservedNum := reservedNum - 1;
        return false;
      }
      assert reserved == map[];
      AllListed(old(View()));
      var first := lru[0];
      lru := lru[1..];
      reserved := reserved[vm := first];
      ok := true;
    }

    method FreeReserved(vm: nat)
      requires Placed(View())
      modifies this
      ensures View() == Vmid.FreeReserved(old(View()), vm) && Placed(View())
    {
      FreeKeepsPlaces(View(), vm);
      if vm in reserved {
        lru := [reserved[vm]] + lru;
        reserved := reserved - {vm};
        reservedNum := reservedNum - 1;
      }
    }

    /** gsgpu_vmid_reset_all: no id but 0 keeps an owner, and nothing else changes. */
    method ResetAll()
      requires Placed(View())
      modifies this`ids
      ensures |ids| == old(|ids|) && Placed(View())
      ensures forall i :: 1 <= i < |ids| ==> ids[i] == old(ids[i]).(owner := 0)
      ensures ids[0] == old(ids[0])
    {
      var i := 1;
      while i < |ids|
        invariant 1 <= i <= |ids| && |ids| == old(|ids|) && ids[0] == old(ids[0])
        invariant forall j :: 1 <= j < i ==> ids[j] == old(ids[j]).(owner := 0)
        invariant forall j :: i <= j < |ids| ==> ids[j] == old(ids[j])
      {
        ids := ids[i := ids[i].(owner := 0)];
        i := i + 1;
      }
      SamePlaces(old(View()), View());
    }
  }
}
