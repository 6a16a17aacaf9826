/** The buffer object's lock-held sections, updating its fields in place. */
module BufferObject {
  import opened Wrappers
  import opened BufferModel

  class TtmBo {
    var users: nat
    var listKref: int
    var lru: bool
    var swap: bool
    var ddestroy: bool
    var resv: Option<nat>
    const own: bool
    var inner: bool
    var mm: bool
    var noEvict: bool
    var bug: bool
    ghost var life: Life
    ghost var todo: Option<nat>
    ghost var cleaned: nat
    ghost var released: nat

    ghost function View(): Bo
      reads this
    {
      Bo(users, listKref, lru, swap, ddestroy, resv, own, inner, mm, noEvict, life, todo, cleaned, released, bug)
    }

    /** ttm_bo_init_reserved by actor a, with a reservation of its own or a shared one that a holds;
        mm and noEvict are what its validation leaves, valid says whether that succeeded. */
    constructor (a: nat, own: bool, mm: bool, noEvict: bool, valid: bool, swappable: bool)
      ensures var b := Created(a, own, mm, noEvict);
              View() == if !own && valid then BufferModel.AddToLru(b, swappable) else b
    {
      users, listKref := 1, 1;
      lru, swap, ddestroy := false, false, false;
      resv, this.own, inner := Some(a), own, false;
      this.mm, this.noEvict, bug := mm, noEvict, false;
      life, todo, cleaned, released := Used, None, 0, 0;
      new;
      if !own && valid && !noEvict {
        AddToLru(swappable);
      }
    }

    method PutRefBug()
      modifies this`listKref, this`bug
      ensures View() == PutNotLast(old(View()))
    {
      listKref := listKref - 1;
      if listKref <= 0 {
        bug := true;
      }
    }

    method AddToLru(swappable: bool)
      modifies this`lru, this`swap, this`listKref, this`bug
      ensures View() == BufferModel.AddToLru(old(View()), swappable)
    {
      if !noEvict {
        if lru {
          bug := true;
        }
        lru := true;
        listKref := listKref + 1;
        if swappable {
          if swap {
            bug := true;
          }
          swap := true;
          listKref := listKref + 1;
        }
      }
    }

    method DelFromLru()
      modifies this`lru, this`swap, this`listKref, this`bug
      ensures View() == BufferModel.DelFromLru(old(View()))
    {
      if swap {
        swap := false;
        PutRefBug();
      }
      if lru {
        lru := false;
        PutRefBug();
      }
    }

    method MoveToLruTail(swappable: bool)
      modifies this`lru, this`swap, this`listKref, this`bug
      ensures View() == BufferModel.AddToLru(BufferModel.DelFromLru(old(View())), swappable)
    {
      DelFromLru();
      AddToLru(swappable);
    }

    method QueueForDestroy(a: nat)
      modifies this`inner, this`listKref, this`ddestroy, this`life, this`bug
      ensures View() == QueueDead(old(View()), a)
    {
      inner := false;
      listKref := listKref + 1;
      if ddestroy {
        bug := true;
      }
      ddestroy := true;
      life := Dropping(a);
    }

    /** The part of ttm_bo_cleanup_refs_or_queue under the lru lock, for the actor
        that dropped the last use; true when it must clean the memory itself. */
    method CleanupRefsOrQueue(a: nat, idle: bool, swappable: bool) returns (direct: bool)
      modifies this
      ensures (View(), if direct then RelClean else RelPut) == ReleaseOrQueue(old(View()), a, idle, swappable)
    {
      if resv.None? && idle {
        StartCleaning(a);
        return true;
      }
      // a busy buffer's trylock is dropped again before the lru lock is
      if resv.None? && noEvict {
        ShowToShrinkers(swappable);
      }
      QueueForDestroy(a);
      return false;
    }

    /** The idle buffer, reserved, leaves the lru lists, for actor a to clean. */
    method StartCleaning(a: nat)
      modifies this`resv, this`lru, this`swap, this`listKref, this`bug, this`inner, this`life, this`todo
      ensures View() == BufferModel.DelFromLru(old(View())).(resv := Some(a), inner := false, life := Cleaning(a),
                                                             todo := Some(a))
    {
      DelFromLru();
      resv := Some(a);
      inner := false;
      life, todo := Cleaning(a), Some(a);
    }

    method ShowToShrinkers(swappable: bool)
      modifies this`noEvict, this`lru, this`swap, this`listKref, this`bug
      ensures View() == BufferModel.AddToLru(old(View()).(noEvict := false), swappable)
    {
      noEvict := false;
      AddToLru(swappable);
    }

    /** ttm_bo_cleanup_refs up to the point where it drops the lru lock; the
        result is where the caller goes on. */
    method CleanupRefs(a: nat, outer: bool, idle: bool, noWait: bool) returns (pc: Pc)
      modifies this
      ensures (View(), pc) == BufferModel.CleanupRefs(old(View()), a, Actor(false, outer, Rest), idle, noWait)
    {
      if !idle && !noWait {
        if !outer {
          resv := None;
        }
        return CleanWait;
      }
      if !idle || !ddestroy {
        if !outer {
          resv := None;
        }
        return PutList;
      }
      TakeOffDestroyList(a);
      return CleanNow;
    }

    /** The dead buffer leaves every list, for actor a to clean. */
    method TakeOffDestroyList(a: nat)
      modifies this`lru, this`swap, this`ddestroy, this`listKref, this`todo, this`bug
      ensures View() == TakeDead(old(View()), a)
    {
      DelFromLru();
      ddestroy := false;
      PutRefBug();
      todo := Some(a);
    }

    /** kref_put with ttm_bo_release_list and its BUG checks. */
    method PutListRef()
      modifies this`listKref, this`released, this`bug
      ensures View() == PutRelease(old(View()))
    {
      listKref := listKref - 1;
      if listKref == 0 {
        released := released + 1;
        if users > 0 || mm || lru || ddestroy {
          bug := true;
        }
      } else if listKref < 0 {
        bug := true;
      }
    }
  }
}
