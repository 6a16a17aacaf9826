/** A pool of free pages: a list with its length beside it, filled, cut from the
    front and freed from the tail in batches. */
module PagePool {
  import opened PageLayout
  import opened PageArray

  const FreeAll: nat := 0xFFFF_FFFF

  function Min(a: int, b: int): int {
    if a <= b then a else b
  }

  function Max(a: int, b: int): int {
    if a >= b then a else b
  }

  /** The last k pages, newest last first: the order in which they are freed. */
  function TailReversed(s: seq<int>, k: nat): (r: seq<int>)
    requires k <= |s|
    ensures |r| == k && forall j :: 0 <= j < k ==> r[j] == s[|s| - 1 - j]
  {
    seq(k, j requires 0 <= j < k => s[|s| - 1 - j])
  }

  lemma TailMore(s: seq<int>, k: nat, m: nat)
    requires k + m <= |s|
    ensures TailReversed(s, k + m) == TailReversed(s, k) + TailReversed(s[..|s| - k], m)
  {
  }

  lemma TailMultiset(s: seq<int>, k: nat)
    requires k <= |s|
    ensures multiset(s[..|s| - k]) + multiset(TailReversed(s, k)) == multiset(s)
  {
    if k == 0 {
      assert s[..|s|] == s;
    } else {
      TailMultiset(s, k - 1);
      TailMore(s, k - 1, 1);
      var t := s[..|s| - (k - 1)];
      assert t == s[..|s| - k] + [t[|t| - 1]];
      assert TailReversed(t, 1) == [t[|t| - 1]];
    }
  }

  /** What the kernel answers: memory for the work array, pages in turn and then
      none, and whether the k-th change of caching succeeds. */
  datatype Supply = Supply(room: bool, pages: seq<int>, caching: nat -> bool)

  /** Nothing will go wrong for count pages. */
  ghost predicate Plenty(s: Supply, count: nat) {
    s.room && |s.pages| >= count && forall k :: s.caching(k)
  }

  /** The first m pages, the newest first. */
  function Newest(ps: seq<int>, m: nat): (r: seq<int>)
    requires m <= |ps|
    ensures |r| == m && forall j :: 0 <= j < m ==> r[j] == ps[m - 1 - j]
  {
    seq(m, j requires 0 <= j < m => ps[m - 1 - j])
  }

  lemma NewestMore(ps: seq<int>, m: nat, onto: seq<int>)
    requires m < |ps|
    ensures [ps[m]] + (Newest(ps, m) + onto) == Newest(ps, m + 1) + onto
  {
  }

  lemma NewestDrop(ps: seq<int>, m: nat, k: nat, onto: seq<int>)
    requires k <= m <= |ps|
    ensures (Newest(ps, m) + onto)[k..] == Newest(ps, m - k) + onto
  {
  }

  /** How many of n pages stay when they are changed in batches of max from page from on: all, or
      those before the first batch that cannot be changed. */
  function Kept(s: Supply, max: nat, n: nat, turn: nat, from: nat): (r: nat)
    requires max >= 1
    ensures r <= n && (from <= n ==> from <= r)
    decreases n - from
  {
    if from >= n then n
    else if !s.caching(turn) then from
    else Kept(s, max, n, turn + 1, from + max)
  }

  /** How many pages a request for count of them yields. */
  function Supplied(s: Supply, count: nat, batch: nat): (m: nat)
    requires batch >= 1
    ensures m <= count && m <= |s.pages|
  {
    if !s.room || count == 0 then 0 else Kept(s, Min(count, batch), Min(count, |s.pages|), 0, 0)
  }

  function New(s: Supply, count: nat, batch: nat): (r: seq<int>)
    requires batch >= 1
    ensures |r| <= count && |r| <= |s.pages|
  {
    Newest(s.pages, Supplied(s, count, batch))
  }

  lemma {:induction false} KeptAll(s: Supply, max: nat, n: nat, turn: nat, from: nat)
    requires max >= 1 && from <= n && forall k :: s.caching(k)
    ensures Kept(s, max, n, turn, from) == n
    decreases n - from
  {
    if from + max < n {
      KeptAll(s, max, n, turn + 1, from + max);
    }
  }

  /** When nothing goes wrong, all that was asked for is there. */
  lemma PlentySupplied(s: Supply, count: nat, batch: nat)
    requires batch >= 1 && Plenty(s, count)
    ensures Supplied(s, count, batch) == count
  {
    if count > 0 {
      KeptAll(s, Min(count, batch), count, 0, 0);
    }
  }

  /** ttm_alloc_new_pages for single pages: onto grows at the front. Pages are changed in
      batches, and a batch that cannot be changed is taken off again. */
  method AllocNewPages(onto: seq<int>, count: nat, batch: nat, supply: Supply) returns (ok: bool, pages: seq<int>)
    requires batch >= 1
    ensures pages == New(supply, count, batch) + onto
    ensures ok <==> supply.room && Supplied(supply, count, batch) == count
  {
    pages := onto;
    if !supply.room {
      return false, onto;
    }
    var max := Min(count, batch);
    var i, pending, turn := 0, 0, 0;
    ghost var n := Min(count, |supply.pages|);
    while i < count
      invariant 0 <= i <= n && 0 <= pending <= i && 0 <= turn && (i < count ==> pending < max)
      invariant pages == Newest(supply.pages, i) + onto
      invariant max >= 1 ==> Kept(supply, max, n, turn, i - pending) == Supplied(supply, count, batch)
      invariant count == i ==> pending < max || count == 0
    {
      if i >= |supply.pages| {
        if pending > 0 && !supply.caching(turn) {
          NewestDrop(supply.pages, i, pending, onto);
          pages := pages[pending..];
        }
        return false, pages;
      }
      NewestMore(supply.pages, i, onto);
      pages := [supply.pages[i]] + pages;
      pending := pending + 1;
      i := i + 1;
      if pending == max {
        if !supply.caching(turn) {
          NewestDrop(supply.pages, i, pending, onto);
          return false, pages[pending..];
        }
        pending, turn := 0, turn + 1;
      }
    }
    if pending > 0 && !supply.caching(turn) {
      NewestDrop(supply.pages, i, pending, onto);
      return false, pages[pending..];
    }
    ok := true;
  }

  // ---- What a pool hands out ----

  /** The result of a request, the pool after it, and the pages handed out. */
  datatype Got = Got(ok: bool, list: seq<int>, pages: seq<int>)

  /** The pool after the refill that a small request it cannot meet brings about. */
  function Refilled(list: seq<int>, locked: bool, batch: nat, count: nat, small: nat, allocSize: nat, refill: Supply): (r: seq<int>)
    requires batch >= 1
    ensures |r| <= |list| + allocSize
  {
    if !locked && |list| < count < small then New(refill, allocSize, batch) + list else list
  }

  /** The first count pages of a pool; what it lacks is allocated in front of them. */
  function Taken(had: seq<int>, batch: nat, count: nat, supply: Supply): (g: Got)
    requires batch >= 1
    ensures |g.pages| <= count && (g.ok <==> |g.pages| == count) && |g.list| <= |had|
  {
    if count <= |had| then Got(true, had[count..], had[..count])
    else
      var more := New(supply, count - |had|, batch);
      Got(|more| == count - |had|, [], more + had)
  }

  /** What Taken allocates. */
  function Allocated(had: seq<int>, batch: nat, count: nat, supply: Supply): seq<int>
    requires batch >= 1
  {
    if count <= |had| then [] else New(supply, count - |had|, batch)
  }

  /** Pages are neither lost nor made up. */
  lemma TakenConserves(had: seq<int>, batch: nat, count: nat, supply: Supply)
    requires batch >= 1
    ensures var g := Taken(had, batch, count, supply);
            multiset(g.list) + multiset(g.pages) == multiset(had) + multiset(Allocated(had, batch, count, supply))
  {
    if count <= |had| {
      assert had == had[..count] + had[count..];
    }
  }

  class Pool {
    const batch: nat
    var list: seq<int>
    var npages: int
    var nfrees: int
    var nrefills: int
    var fillLock: bool

    ghost predicate Valid()
      reads this
    {
      batch >= 1 && npages == |list| && npages <= FreeAll
    }

    constructor (batch: nat)
      requires batch >= 1
      ensures Valid() && list == [] && !fillLock && this.batch == batch
    {
      this.batch := batch;
      list, npages, nfrees, nrefills, fillLock := [], 0, 0, 0, false;
    }

    /** Walks back from the tail into the buffer, which is never overrun. */
    method Collect(buf: array<int>, want: nat) returns (freed: nat)
      requires Valid() && want <= batch && want <= buf.Length
      modifies buf
      ensures freed == Min(want, |list|) && freed <= buf.Length && buf[..freed] == TailReversed(list, freed)
    {
      freed := 0;
      var k := |list|;
      while k > 0
        invariant 0 <= k && k == |list| - freed && 0 <= freed <= want
        invariant buf[..freed] == TailReversed(list, freed)
      {
        if freed >= want {
          break;
        }
        k := k - 1;
        buf[freed] := list[k];
        freed := freed + 1;
      }
    }

    method UpdateFree(freed: nat)
      modifies this`npages, this`nfrees
      ensures npages == old(npages) - freed && nfrees == old(nfrees) + freed
    {
      npages := npages - freed;
      nfrees := nfrees + freed;
    }

    /** One batch leaves the tail of the list. */
    method TakeBatch(buf: array<int>, want: nat) returns (n: nat)
      requires Valid() && want <= batch && want <= buf.Length
      modifies buf, this`list, this`npages, this`nfrees
      ensures Valid() && n == Min(want, |old(list)|) && n <= buf.Length && nfrees == old(nfrees) + n
      ensures list == old(list)[..|old(list)| - n] && buf[..n] == TailReversed(old(list), n)
    {
      n := Collect(buf, want);
      list := list[..|list| - n];
      UpdateFree(n);
    }

    /** ttm_page_pool_free: takes exactly min(nrFree, npages) pages off the tail, in
        batches, and gives them back last first. Without a buffer nothing happens. */
    method Free(nrFree: nat, room: bool) returns (left: int, freed: seq<int>)
      requires Valid() && nrFree <= FreeAll
      modifies this`list, this`npages, this`nfrees
      ensures Valid()
      ensures var k := if room then Min(nrFree, |old(list)|) else 0;
              && list == old(list)[..|old(list)| - k] && freed == TailReversed(old(list), k)
              && nfrees == old(nfrees) + k
              && (room && nrFree != FreeAll ==> left == nrFree - k)
    {
      freed := [];
      var nr := nrFree;
      var want := Min(nr, batch);
      if !room {
        return 0, [];
      }
      var buf := new int[want];
      ghost var was := list;
      while true
        invariant Valid() && |list| <= |was| && list == was[..|list|] && 0 <= want == Min(nr, batch) <= buf.Length
        invariant freed == TailReversed(was, |was| - |list|) && nfrees == old(nfrees) + |freed|
        invariant if nrFree == FreeAll then nr == FreeAll else nr == nrFree - |freed| && 0 <= nr
        decreases |list|
      {
        TailMore(was, |was| - |list|, Min(want, |list|));
        var n := TakeBatch(buf, want);
        freed := freed + buf[..n];
        if n < batch {
          left := nr - n;
          return;
        }
        if nr != FreeAll {
          nr := nr - n;
        }
        want := Min(nr, batch);
        if nr == 0 {
          return 0, freed;
        }
      }
    }

    /** ttm_page_pool_fill_locked: fresh pages go onto the front of the list, on a failure whatever
        was left of them. Another filler means no fill. */
    method FillLocked(count: nat, small: nat, allocSize: nat, supply: Supply)
      requires Valid() && |list| + allocSize <= FreeAll
      modifies this`list, this`npages, this`nrefills, this`fillLock
      ensures Valid() && fillLock == old(fillLock)
      ensures list == Refilled(old(list), old(fillLock), batch, count, small, allocSize, supply)
      ensures nrefills > old(nrefills) ==> |list| == |old(list)| + allocSize
    {
      if fillLock {
        return;
      }
      fillLock := true;
      if count < small && count > npages {
        var ok, pages := AllocNewPages([], allocSize, batch, supply);
        assert pages == New(supply, allocSize, batch);
        list := pages + list;
        if ok {
          nrefills := nrefills + 1;
          npages := npages + allocSize;
        } else {
          npages := npages + |pages|;
        }
      }
      fillLock := false;
    }

    /** The cut: the first count pages, found from whichever end is nearer. */
    method Cut(count: nat) returns (taken: seq<int>)
      requires Valid() && count < npages
      modifies this`list, this`npages
      ensures Valid() && taken == old(list)[..count] && list == old(list)[count..]
    {
      var p: int;
      var i: int;
      if count <= npages / 2 {
        i, p := 0, 0;
        while p < |list|
          invariant 0 <= p <= |list| && i == p && (count > 0 ==> p < count)
        {
          i := i + 1;
          if i == count {
            break;
          }
          p := p + 1;
        }
        if p == |list| {
          // ran back to the list head, which cuts nothing: only for count 0
          p := -1;
        }
      } else {
        i, p := npages + 1, |list| - 1;
        while p >= 0
          invariant -1 <= p < |list| && i == p + 2 && p + 1 >= count
        {
          i := i - 1;
          if i == count {
            break;
          }
          p := p - 1;
        }
      }
      taken := list[..p + 1];
      list := list[p + 1..];
      npages := npages - count;
    }

    /** ttm_page_pool_get_pages: the first count pages of the pool, refilled first when
        the request is for single pages and small; what the pool lacks is allocated. */
    method GetPages(count: nat, order: nat, small: nat, allocSize: nat, refill: Supply, supply: Supply)
      returns (ok: bool, pages: seq<int>)
      requires Valid() && |list| + allocSize <= FreeAll
      modifies this`list, this`npages, this`nrefills, this`fillLock
      ensures Valid() && fillLock == old(fillLock)
      ensures var had := if order == 0 then Refilled(old(list), old(fillLock), batch, count, small, allocSize, refill)
                         else old(list);
              Got(ok, list, pages) == Taken(had, batch, count, supply)
    {
      if order == 0 {
        FillLocked(count, small, allocSize, refill);
      }
      ghost var had := list;
      var left := count;
      if left >= npages {
        pages := list;
        left := left - npages;
        list, npages := [], 0;
      } else {
        pages := Cut(left);
        left := 0;
      }
      ok := true;
      if left > 0 {
        ok, pages := AllocNewPages(pages, left, batch, supply);
      } else {
        assert count == |had| ==> had[..count] == had && had[count..] == [];
      }
    }
  }
}
