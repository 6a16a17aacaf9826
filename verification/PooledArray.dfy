/** ttm_get_pages and ttm_put_pages for memory types with pools: huge blocks come from
    and go to the huge pool, single pages the other. */
module PooledArray {
  import opened Wrappers
  import opened Seqs
  import opened PageLayout
  import opened PageArray
  import opened PagePool

  /** How many pages a put frees again: none below the limit, at least floor above it. */
  function Excess(len: nat, max: nat, floor: nat, room: bool): (k: nat)
    ensures k <= len && (room ==> len - k <= max)
  {
    if len > max && room then Min(Max(len - max, floor), len) else 0
  }

  /** A pool that held all has been cut back to list, giving back freed. */
  ghost predicate Trimmed(all: seq<int>, list: seq<int>, freed: seq<int>, max: nat, floor: nat, room: bool) {
    var k := Excess(|all|, max, floor, room);
    list == all[..|all| - k] && freed == TailReversed(all, k)
  }

  /** The same for a pool of blocks, whose limit counts pages. */
  ghost predicate HugeTrimmed(all: seq<int>, list: seq<int>, freed: seq<int>, max: nat, h: nat, room: bool) {
    h >= 1 && Trimmed(all, list, freed, max / h, 0, room)
  }

  lemma TrimmedKeeps(all: seq<int>, list: seq<int>, freed: seq<int>, max: nat, floor: nat, room: bool)
    requires Trimmed(all, list, freed, max, floor, room)
    ensures multiset(list) + multiset(freed) == multiset(all)
    ensures room ==> |list| <= max
  {
    TailMultiset(all, Excess(|all|, max, floor, room));
  }

  lemma LeadingAt(ps: seq<int>, i: nat, n: nat, h: nat)
    requires i <= n <= |ps| && h >= 2
    ensures n - i < h || ps[i] == Null || !Ascends(ps[i..n], h) ==>
              Leading(ps[i..n], h) == [] && AfterLeading(ps[i..n], h) == ps[i..n]
    ensures n - i >= h && ps[i] != Null && Ascends(ps[i..n], h) ==>
              Leading(ps[i..n], h) == [ps[i]] + Leading(ps[i + h..n], h)
              && AfterLeading(ps[i..n], h) == AfterLeading(ps[i + h..n], h)
  {
    if n - i >= h {
      assert ps[i..n][h..] == ps[i + h..n];
    }
  }

  /** The leading blocks go to the huge pool; i is where they end. */
  method PutBlocks(pages: array<int>, n: nat, h: nat, huge: Pool) returns (i: nat)
    requires n <= pages.Length && h >= 2 && huge.Valid() && |huge.list| + n <= FreeAll
    modifies pages, huge`list, huge`npages
    ensures i <= n && huge.Valid()
    ensures huge.list == old(huge.list) + Leading(old(pages[..n]), h)
    ensures old(pages[..])[i..n] == AfterLeading(old(pages[..n]), h)
    ensures forall k :: 0 <= k < pages.Length ==> pages[k] == if k < i then Null else old(pages[k])
  {
    ghost var was := pages[..];
    i := 0;
    assert was[0..n] == was[..n];
    while n - i >= h
      invariant 0 <= i <= n && huge.Valid() && |huge.list| + (n - i) <= FreeAll
      invariant huge.list + Leading(was[i..n], h) == old(huge.list) + Leading(was[..n], h)
      invariant AfterLeading(was[i..n], h) == AfterLeading(was[..n], h)
      invariant forall k :: 0 <= k < pages.Length ==> pages[k] == if k < i then Null else was[k]
    {
      LeadingAt(was, i, n, h);
      assert pages[i..n] == was[i..n];
      if pages[i] == Null {
        break;
      }
      var block := IsBlock(pages, i, n, h);
      if !block {
        break;
      }
      Appended(huge.list, pages[i], Leading(was[i + h..n], h));
      huge.list := huge.list + [pages[i]];
      huge.npages := huge.npages + 1;
      Clear(pages, i, h);
      i := i + h;
    }
    LeadingAt(was, i, n, h);
  }

  /** The remaining pages go to the pool of single pages. */
  method PutSingles(pages: array<int>, from: nat, n: nat, pool: Pool)
    requires from <= n <= pages.Length && pool.Valid() && |pool.list| + (n - from) <= FreeAll
    modifies pages, pool`list, pool`npages
    ensures pool.Valid() && pool.list == old(pool.list) + NonNull(old(pages[from..n]))
    ensures forall k :: 0 <= k < pages.Length ==> pages[k] == if from <= k < n then Null else old(pages[k])
  {
    ghost var was := pages[..];
    var i := from;
    while i < n
      invariant from <= i <= n && pool.Valid() && |pool.list| + (n - i) <= FreeAll
      invariant pool.list + NonNull(was[i..n]) == old(pool.list) + NonNull(was[from..n])
      invariant forall k :: 0 <= k < pages.Length ==> pages[k] == if from <= k < i then Null else was[k]
    {
      assert was[i..n][1..] == was[i + 1..n];
      if pages[i] != Null {
        Appended(pool.list, pages[i], NonNull(was[i + 1..n]));
        pool.list := pool.list + [pages[i]];
        pages[i] := Null;
        pool.npages := pool.npages + 1;
      }
      i := i + 1;
    }
    assert was[i..n] == [];
  }

  /** Cuts a pool back to its limit, freeing at least floor pages when it frees any. */
  method Trim(pool: Pool, max: nat, floor: nat, room: bool) returns (freed: seq<int>)
    requires pool.Valid()
    modifies pool`list, pool`npages, pool`nfrees
    ensures pool.Valid()
    ensures Trimmed(old(pool.list), pool.list, freed, max, floor, room)
  {
    freed := [];
    if pool.npages > max {
      var left;
      var k := Max(pool.npages - max, floor);
      left, freed := pool.Free(Min(k, FreeAll), room);
    }
  }

  /** ttm_put_pages with a pool. Every block found goes to the huge pool and every other
      page to the single one; then each is cut back to its limit from the tail. */
  method PutPages(pages: array<int>, n: nat, h: nat, pool: Pool, huge: Pool?, max: nat, room: bool, hugeRoom: bool)
    returns (freed: seq<int>, freedHuge: seq<int>)
    requires n <= pages.Length && h >= 2 && pool.Valid() && |pool.list| + n <= FreeAll
    requires huge != null ==> huge != pool && huge.Valid() && |huge.list| + n <= FreeAll
    modifies pages, pool, huge
    ensures pool.Valid() && (huge != null ==> huge.Valid())
    ensures var ps := old(pages[..n]);
            var all := old(pool.list) + NonNull(if huge == null then ps else AfterLeading(ps, h));
            Trimmed(all, pool.list, freed, max, pool.batch, room)
    ensures huge != null ==>
              Trimmed(old(huge.list) + Leading(old(pages[..n]), h), huge.list, freedHuge, max / h, 0, hugeRoom)
    ensures var ps := old(pages[..n]);
            multiset(pool.list) + multiset(freed)
            == multiset(old(pool.list)) + multiset(NonNull(if huge == null then ps else AfterLeading(ps, h)))
    ensures huge != null ==>
              multiset(huge.list) + multiset(freedHuge) == multiset(old(huge.list)) + multiset(Leading(old(pages[..n]), h))
    ensures room ==> pool.npages <= max
    ensures huge != null && hugeRoom ==> huge.npages <= max / h
    ensures forall k :: 0 <= k < pages.Length ==> pages[k] == if k < n then Null else old(pages[k])
  {
    freed, freedHuge := [], [];
    var i := 0;
    ghost var was := pages[..];
    if huge != null {
      i := PutBlocks(pages, n, h, huge);
      ghost var allHuge := huge.list;
      freedHuge := Trim(huge, max / h, 0, hugeRoom);
      TrimmedKeeps(allHuge, huge.list, freedHuge, max / h, 0, hugeRoom);
      assert pages[i..n] == was[i..n];
    } else {
      assert pages[0..n] == was[..n];
    }
    PutSingles(pages, i, n, pool);
    ghost var all := pool.list;
    freed := Trim(pool, max, pool.batch, room);
    TrimmedKeeps(all, pool.list, freed, max, pool.batch, room);
  }

  /** Writes the blocks of the heads one after the other. */
  method PlaceBlocks(pages: array<int>, h: nat, heads: seq<int>)
    requires h >= 2 && |Blocks(heads, h)| <= pages.Length
    modifies pages
    ensures pages[..] == Blocks(heads, h) + old(pages[..])[|Blocks(heads, h)|..]
  {
    var done: seq<int> := [];
    while |done| < |heads|
      invariant done <= heads && |Blocks(done, h)| <= pages.Length
      invariant pages[..] == Blocks(done, h) + old(pages[..])[|Blocks(done, h)|..]
    {
      var p := heads[|done|];
      BlocksMore(done, p, h);
      BlocksPrefix(heads, |done| + 1, h);
      assert heads[..|done| + 1] == done + [p];
      AddBlock(pages, old(pages[..]), done, p, h);
      done := done + [p];
    }
    assert done == heads;
  }

  lemma {:induction false} BlocksPrefix(heads: seq<int>, j: nat, h: nat)
    requires j <= |heads|
    ensures |Blocks(heads[..j], h)| <= |Blocks(heads, h)|
    decreases |heads|
  {
    if j < |heads| {
      var n := |heads| - 1;
      BlocksPrefix(heads[..n], j, h);
      assert heads[..n][..j] == heads[..j];
    } else {
      assert heads[..j] == heads;
    }
  }

  lemma {:induction false} BlocksLength(heads: seq<int>, h: nat)
    ensures |Blocks(heads, h)| == |heads| * h
  {
    if heads != [] {
      BlocksLength(heads[..|heads| - 1], h);
      assert |heads| * h == (|heads| - 1) * h + h;
    }
  }

  lemma BlocksFit(heads: seq<int>, n: nat, h: nat)
    requires h >= 1 && |heads| <= n / h
    ensures |Blocks(heads, h)| <= n
  {
    BlocksLength(heads, h);
    ProductFits(|heads|, n, h);
  }

  lemma ProductFits(k: nat, n: nat, h: nat)
    requires h >= 1 && k <= n / h
    ensures k * h <= n
  {
    assert n / h * h <= n;
    assert k * h <= n / h * h;
  }

  /** What both calls meet: pool limits and the kernel's answers. */
  datatype Options = Options(max: nat, small: nat, allocSize: nat, refill: Supply, supply: Supply, hugeSupply: Supply)

  /** What the huge pool gives for an array of n pages. */
  function FromHuge(list: seq<int>, batch: nat, n: nat, h: nat, o: Options): (g: Got)
    requires batch >= 1 && h >= 2
    ensures |Blocks(g.pages, h)| <= n
  {
    if n < h then Got(true, list, [])
    else
      var g := Taken(list, batch, n / h, o.hugeSupply);
      BlocksFit(g.pages, n, h);
      g
  }

  /** What the pool of single pages gives for count of them. */
  function FromPool(list: seq<int>, locked: bool, batch: nat, count: nat, o: Options): (g: Got)
    requires batch >= 1
    ensures |g.pages| <= count && (g.ok <==> |g.pages| == count) && |g.list| <= |list| + o.allocSize
  {
    Taken(Refilled(list, locked, batch, count, o.small, o.allocSize, o.refill), batch, count, o.supply)
  }

  /** The pages that the kernel adds to the single pool's: by the refill, and for the request. */
  function PoolBought(list: seq<int>, locked: bool, batch: nat, count: nat, o: Options): seq<int>
    requires batch >= 1
  {
    var had := Refilled(list, locked, batch, count, o.small, o.allocSize, o.refill);
    Allocated(had, batch, count, o.supply)
    + if !locked && |list| < count < o.small then New(o.refill, o.allocSize, batch) else []
  }

  function HugeBought(list: seq<int>, batch: nat, n: nat, h: nat, o: Options): seq<int>
    requires batch >= 1 && h >= 2
  {
    if n < h then [] else Allocated(list, batch, n / h, o.hugeSupply)
  }

  /** Each pool's pages, with those bought for it, are what it keeps and what it hands out. */
  lemma PoolConserves(list: seq<int>, locked: bool, batch: nat, count: nat, o: Options)
    requires batch >= 1
    ensures var g := FromPool(list, locked, batch, count, o);
            multiset(g.list) + multiset(g.pages) == multiset(list) + multiset(PoolBought(list, locked, batch, count, o))
  {
    TakenConserves(Refilled(list, locked, batch, count, o.small, o.allocSize, o.refill), batch, count, o.supply);
  }

  lemma HugeConserves(list: seq<int>, batch: nat, n: nat, h: nat, o: Options)
    requires batch >= 1 && h >= 2
    ensures var g := FromHuge(list, batch, n, h, o);
            multiset(g.list) + multiset(g.pages) == multiset(list) + multiset(HugeBought(list, batch, n, h, o))
  {
    if n >= h {
      TakenConserves(list, batch, n / h, o.hugeSupply);
    }
  }

  /** What the kernel sells are pages of its supplies. */
  lemma BoughtFrom(list: seq<int>, locked: bool, batch: nat, count: nat, o: Options)
    requires batch >= 1
    ensures multiset(PoolBought(list, locked, batch, count, o)) <= multiset(o.supply.pages) + multiset(o.refill.pages)
  {
    var had := Refilled(list, locked, batch, count, o.small, o.allocSize, o.refill);
    NewestPrefix(o.refill.pages, Supplied(o.refill, o.allocSize, batch));
    if count > |had| {
      NewestPrefix(o.supply.pages, Supplied(o.supply, count - |had|, batch));
    }
  }

  lemma HugeBoughtFrom(list: seq<int>, batch: nat, n: nat, h: nat, o: Options)
    requires batch >= 1 && h >= 2
    ensures multiset(HugeBought(list, batch, n, h, o)) <= multiset(o.hugeSupply.pages)
  {
    if n >= h && n / h > |list| {
      NewestPrefix(o.hugeSupply.pages, Supplied(o.hugeSupply, n / h - |list|, batch));
    }
  }

  lemma {:induction false} NewestPrefix(ps: seq<int>, m: nat)
    requires m <= |ps|
    ensures multiset(Newest(ps, m)) == multiset(ps[..m]) <= multiset(ps)
  {
    assert ps == ps[..m] + ps[m..];
    if m > 0 {
      NewestPrefix(ps, m - 1);
      assert Newest(ps, m) == [ps[m - 1]] + Newest(ps, m - 1);
      assert ps[..m] == ps[..m - 1] + [ps[m - 1]];
    }
  }

  /** As many blocks as fit and the huge pool and the allocator give. */
  method GetHuge(pages: array<int>, h: nat, huge: Pool, o: Options) returns (heads: seq<int>)
    requires h >= 2 && huge.Valid() && |huge.list| + o.allocSize <= FreeAll
    modifies pages, huge
    ensures huge.Valid()
    ensures var g := FromHuge(old(huge.list), huge.batch, pages.Length, h, o); heads == g.pages && huge.list == g.list
    ensures |Blocks(heads, h)| <= pages.Length
    ensures pages[..] == Blocks(heads, h) + old(pages[..])[|Blocks(heads, h)|..]
  {
    var n := pages.Length;
    heads := [];
    if n >= h {
      var ok;
      ok, heads := huge.GetPages(n / h, 9, o.small, o.allocSize, o.refill, o.hugeSupply);
      BlocksFit(heads, n, h);
      PlaceBlocks(pages, h, heads);
    }
  }

  /** Single pages for the rest of the array. */
  method GetSingles(pages: array<int>, first: nat, pool: Pool, o: Options) returns (ok: bool, singles: seq<int>)
    requires first <= pages.Length && pool.Valid() && |pool.list| + o.allocSize <= FreeAll
    modifies pages, pool`list, pool`npages, pool`nrefills, pool`fillLock
    ensures pool.Valid() && pool.fillLock == old(pool.fillLock) && |pool.list| <= old(|pool.list|) + o.allocSize
    ensures Got(ok, pool.list, singles)
            == FromPool(old(pool.list), old(pool.fillLock), pool.batch, pages.Length - first, o)
    ensures pages[..] == old(pages[..])[..first] + (Swapped(singles) + old(pages[..])[first + |singles|..])
  {
    ok, singles := pool.GetPages(pages.Length - first, 0, o.small, o.allocSize, o.refill, o.supply);
    assert Got(ok, pool.list, singles)
           == FromPool(old(pool.list), old(pool.fillLock), pool.batch, pages.Length - first, o);
    PlaceSingles(pages, first, singles);
  }

  /** The huge pool's list and batch size, if there is such a pool. */
  datatype Stock = NoHuge | Stock(list: seq<int>, batch: nat)

  function HugeGot(huge: Stock, n: nat, h: nat, o: Options): (g: Got)
    requires h >= 2 && (huge.Stock? ==> huge.batch >= 1)
    ensures |Blocks(g.pages, h)| <= n && (huge.NoHuge? ==> g.pages == [] && g.list == [])
  {
    if huge.NoHuge? then Got(true, [], []) else FromHuge(huge.list, huge.batch, n, h, o)
  }

  /** The pages of the array that are not in blocks. */
  function Left(n: nat, heads: seq<int>, h: nat): nat {
    if |Blocks(heads, h)| <= n then n - |Blocks(heads, h)| else 0
  }

  /** What a get amounts to: the blocks and single pages it obtains, and the pools after that. */
  datatype Plan = Plan(ok: bool, heads: seq<int>, singles: seq<int>, list: seq<int>, hugeList: seq<int>)

  function PlanOf(list: seq<int>, locked: bool, batch: nat, huge: Stock, n: nat, h: nat, o: Options): (p: Plan)
    requires h >= 2 && batch >= 1 && (huge.Stock? ==> huge.batch >= 1)
    ensures |Laid(p, h)| <= n && (p.ok <==> |Laid(p, h)| == n) && (huge.NoHuge? ==> p.heads == [])
  {
    var g := HugeGot(huge, n, h, o);
    var s := FromPool(list, locked, batch, Left(n, g.pages, h), o);
    Plan(s.ok, g.pages, s.pages, s.list, g.list)
  }

  /** The array that a plan fills. */
  function Laid(p: Plan, h: nat): (r: seq<int>)
    ensures |r| == |Blocks(p.heads, h)| + |p.singles|
  {
    Blocks(p.heads, h) + Swapped(p.singles)
  }

  ghost function StockOf(huge: Pool?): Stock
    reads huge
  {
    if huge == null then NoHuge else Stock(huge.list, huge.batch)
  }

  /** The plan of a get from these pools. */
  ghost function Planned(pages: array<int>, h: nat, pool: Pool, huge: Pool?, o: Options): Plan
    requires h >= 2 && pool.Valid() && (huge != null ==> huge.Valid())
    reads pool, huge
  {
    PlanOf(pool.list, pool.fillLock, pool.batch, StockOf(huge), pages.Length, h, o)
  }

  /** Both pools are in order and have room for the array and a refill. */
  ghost predicate Ready(pages: array<int>, h: nat, pool: Pool, huge: Pool?, o: Options)
    reads pool, huge
  {
    && h >= 2 && pool.Valid() && |pool.list| + o.allocSize + pages.Length <= FreeAll
    && (huge != null ==> huge != pool && huge.Valid() && |huge.list| + o.allocSize + pages.Length <= FreeAll)
  }

  /** Obtaining the pages and laying them out, before the result is looked at. */
  method LayOut(pages: array<int>, h: nat, pool: Pool, huge: Pool?, o: Options)
    returns (ok: bool, heads: seq<int>, singles: seq<int>)
    requires Ready(pages, h, pool, huge, o)
    modifies pages, pool, huge
    ensures pool.Valid() && (huge != null ==> huge.Valid())
    ensures |pool.list| <= old(|pool.list|) + o.allocSize && (huge != null ==> |huge.list| <= old(|huge.list|))
    ensures var g := HugeGot(old(StockOf(huge)), pages.Length, h, o);
            heads == g.pages && (huge != null ==> huge.list == g.list)
    ensures Got(ok, pool.list, singles)
            == FromPool(old(pool.list), old(pool.fillLock), pool.batch, Left(pages.Length, heads, h), o)
    ensures var laid := Blocks(heads, h) + Swapped(singles);
            |laid| <= pages.Length && pages[..] == laid + old(pages[..])[|laid|..]
  {
    ghost var was := pages[..];
    heads := LayBlocks(pages, h, pool, huge, o);
    ok, singles := LaySingles(pages, Blocks(heads, h), was, pool, o);
  }

  /** Single pages behind what has been laid over the array so far. */
  method LaySingles(pages: array<int>, laid: seq<int>, ghost was: seq<int>, pool: Pool, o: Options)
    returns (ok: bool, singles: seq<int>)
    requires |laid| <= |was| == pages.Length && pages[..] == laid + was[|laid|..]
    requires pool.Valid() && |pool.list| + o.allocSize <= FreeAll
    modifies pages, pool`list, pool`npages, pool`nrefills, pool`fillLock
    ensures pool.Valid() && pool.fillLock == old(pool.fillLock) && |pool.list| <= old(|pool.list|) + o.allocSize
    ensures Got(ok, pool.list, singles)
            == FromPool(old(pool.list), old(pool.fillLock), pool.batch, pages.Length - |laid|, o)
    ensures var all := laid + Swapped(singles); |all| <= pages.Length && pages[..] == all + was[|all|..]
  {
    ghost var mid := pages[..];
    ok, singles := GetSingles(pages, |laid|, pool, o);
    Overwritten(was, laid, Swapped(singles), mid, pages[..]);
  }

  /** The blocks, if there is a huge pool. */
  method LayBlocks(pages: array<int>, h: nat, pool: Pool, huge: Pool?, o: Options) returns (heads: seq<int>)
    requires Ready(pages, h, pool, huge, o)
    modifies pages, huge
    ensures huge != null ==> huge.Valid() && |huge.list| <= old(|huge.list|)
    ensures var g := HugeGot(old(StockOf(huge)), pages.Length, h, o);
            heads == g.pages && (huge != null ==> huge.list == g.list)
    ensures pages[..] == Blocks(heads, h) + old(pages[..])[|Blocks(heads, h)|..]
  {
    heads := [];
    if huge != null {
      heads := GetHuge(pages, h, huge, o);
    }
  }

  /** The pages of a laid-out array went to pools that had list0 and huge0, which may have
      freed some to keep their limits. */
  ghost predicate PutInto(laid: seq<int>, h: nat, list0: seq<int>, huge0: seq<int>, pool: Pool, huge: Pool?,
                          freed: seq<int>, freedHuge: seq<int>, max: nat, room: bool, hugeRoom: bool)
    requires h >= 2
    reads pool, huge
  {
    if huge == null then
      Trimmed(list0 + NonNull(laid), pool.list, freed, max, pool.batch, room)
    else
      && Trimmed(list0 + NonNull(AfterLeading(laid, h)), pool.list, freed, max, pool.batch, room)
      && Trimmed(huge0 + Leading(laid, h), huge.list, freedHuge, max / h, 0, hugeRoom)
  }

  /** ttm_get_pages with a pool: blocks first, then the single pages with the swap. A failure
      puts all of them into the pools again. */
  method GetPages(pages: array<int>, h: nat, pool: Pool, huge: Pool?, o: Options, room: bool, hugeRoom: bool)
    returns (ok: bool, heads: seq<int>, singles: seq<int>, freed: seq<int>, freedHuge: seq<int>)
    requires Ready(pages, h, pool, huge, o)
    modifies pages, pool, huge
    ensures pool.Valid() && (huge != null ==> huge.Valid())
    ensures var p := old(Planned(pages, h, pool, huge, o));
            && ok == p.ok && heads == p.heads && singles == p.singles
            && (ok ==> pages[..] == Laid(p, h) && pool.list == p.list && (huge != null ==> huge.list == p.hugeList))
            && (ok ==> freed == [] && freedHuge == [] && |pool.list| <= old(|pool.list|) + o.allocSize
                       && (huge != null ==> |huge.list| <= old(|huge.list|)))
            && (!ok ==> PutInto(Laid(p, h), h, p.list, p.hugeList, pool, huge, freed, freedHuge, o.max, room, hugeRoom))
            && (!ok ==> forall k :: 0 <= k < pages.Length ==> pages[k] == if k < |Laid(p, h)| then Null else old(pages[k]))
  {
    freed, freedHuge := [], [];
    ghost var p := Planned(pages, h, pool, huge, o);
    ghost var was := pages[..];
    ok, heads, singles := LayOut(pages, h, pool, huge, o);
    if !ok {
      var n := |Blocks(heads, h)| + |singles|;
      assert pages[..n] == Laid(p, h);
      freed, freedHuge := PutPages(pages, n, h, pool, huge, o.max, room, hugeRoom);
    } else {
      assert pages[..] == Laid(p, h);
    }
  }

  /** With pages to spare a get succeeds. */
  lemma PlentySucceeds(list: seq<int>, locked: bool, batch: nat, huge: Stock, n: nat, h: nat, o: Options)
    requires h >= 2 && batch >= 1 && (huge.Stock? ==> huge.batch >= 1) && Plenty(o.supply, n)
    ensures PlanOf(list, locked, batch, huge, n, h, o).ok
  {
    var count := Left(n, HugeGot(huge, n, h, o).pages, h);
    var had := Refilled(list, locked, batch, count, o.small, o.allocSize, o.refill);
    if count > |had| {
      PlentySupplied(o.supply, count - |had|, batch);
    }
  }

  // ---- Getting and putting ----

  lemma PagesPart(all: seq<int>, ps: seq<int>)
    requires Pages(all) && multiset(ps) <= multiset(all)
    ensures Pages(ps)
  {
    forall i | 0 <= i < |ps|
      ensures ps[i] > Null
    {
      assert ps[i] in multiset(all);
    }
  }

  lemma LaidBlocks(heads: seq<int>, ps: seq<int>, h: nat, laid: seq<int>)
    requires h >= 2 && Pages(heads) && Pages(ps) && Distinct(ps) && laid == Blocks(heads, h) + Swapped(ps)
    ensures Leading(laid, h) == heads && NonNull(AfterLeading(laid, h)) == Swapped(ps)
  {
    assert laid == Blocks(heads, h) + (Swapped(ps) + []);
    ClassifyLayout(heads, ps, [], h);
  }

  lemma LaidSingles(ps: seq<int>, h: nat)
    requires h >= 2 && Pages(ps) && Distinct(ps)
    ensures NonNull(Swapped(ps)) == Swapped(ps)
  {
    SwappedNoAscent(ps);
    SwappedPages(ps);
    ClassifySingles(Swapped(ps), [], h, true);
    assert Swapped(ps) + [] == Swapped(ps);
  }

  /** How a put sees an array that a get laid out: exactly its blocks, and exactly its single pages. */
  lemma LaidSeen(p: Plan, h: nat)
    requires h >= 2 && Pages(p.heads) && Pages(p.singles) && Distinct(p.singles)
    ensures Leading(Laid(p, h), h) == p.heads && NonNull(AfterLeading(Laid(p, h), h)) == Swapped(p.singles)
    ensures p.heads == [] ==> NonNull(Laid(p, h)) == Swapped(p.singles)
    ensures multiset(Swapped(p.singles)) == multiset(p.singles)
  {
    SwappedMultiset(p.singles);
    LaidBlocks(p.heads, p.singles, h, Laid(p, h));
    LaidSingles(p.singles, h);
    if p.heads == [] {
      assert Laid(p, h) == Swapped(p.singles);
    }
  }

  /** All pages that a get may meet: the pool's and the kernel's. */
  function SingleStock(list: seq<int>, o: Options): seq<int> {
    list + (o.supply.pages + o.refill.pages)
  }

  function HugeStock(huge: Stock, o: Options): seq<int> {
    (if huge.Stock? then huge.list else []) + o.hugeSupply.pages
  }

  lemma Part(a: multiset<int>, b: multiset<int>, c: multiset<int>, d: multiset<int>, e: multiset<int>)
    requires a + b == c + d && d <= e
    ensures b <= c + e
  {
    forall x
      ensures b[x] <= (c + e)[x]
    {
      assert (a + b)[x] == (c + d)[x];
    }
  }

  /** What the single pool hands out are distinct pages of the stock. */
  lemma SinglesReal(list: seq<int>, locked: bool, batch: nat, count: nat, o: Options)
    requires batch >= 1 && Pages(SingleStock(list, o)) && Distinct(SingleStock(list, o))
    ensures var g := FromPool(list, locked, batch, count, o); Pages(g.pages) && Distinct(g.pages)
  {
    var g := FromPool(list, locked, batch, count, o);
    PoolConserves(list, locked, batch, count, o);
    BoughtFrom(list, locked, batch, count, o);
    var sold := multiset(o.supply.pages) + multiset(o.refill.pages);
    Part(multiset(g.list), multiset(g.pages), multiset(list), multiset(PoolBought(list, locked, batch, count, o)), sold);
    assert multiset(SingleStock(list, o)) == multiset(list) + sold;
    PagesPart(SingleStock(list, o), g.pages);
    DistinctPart(SingleStock(list, o), g.pages);
  }

  lemma HeadsReal(huge: Stock, n: nat, h: nat, o: Options)
    requires h >= 2 && (huge.Stock? ==> huge.batch >= 1) && Pages(HugeStock(huge, o))
    ensures Pages(HugeGot(huge, n, h, o).pages)
  {
    if huge.Stock? {
      var g := HugeGot(huge, n, h, o);
      HugeConserves(huge.list, huge.batch, n, h, o);
      HugeBoughtFrom(huge.list, huge.batch, n, h, o);
      Part(multiset(g.list), multiset(g.pages), multiset(huge.list),
           multiset(HugeBought(huge.list, huge.batch, n, h, o)), multiset(o.hugeSupply.pages));
      assert multiset(HugeStock(huge, o)) == multiset(huge.list) + multiset(o.hugeSupply.pages);
      PagesPart(HugeStock(huge, o), g.pages);
    }
  }

  /** The plan's pages are real, and its single pages distinct, when those of the stock are. */
  lemma PlanReal(list: seq<int>, locked: bool, batch: nat, huge: Stock, n: nat, h: nat, o: Options)
    requires h >= 2 && batch >= 1 && (huge.Stock? ==> huge.batch >= 1)
    requires Pages(SingleStock(list, o)) && Distinct(SingleStock(list, o)) && Pages(HugeStock(huge, o))
    ensures var p := PlanOf(list, locked, batch, huge, n, h, o); Pages(p.heads) && Pages(p.singles) && Distinct(p.singles)
  {
    HeadsReal(huge, n, h, o);
    SinglesReal(list, locked, batch, Left(n, HugeGot(huge, n, h, o).pages, h), o);
  }

  /** The single pool's pages and those bought for it are what it keeps and what it frees. */
  ghost predicate PoolKept(list0: seq<int>, locked: bool, batch: nat, count: nat, o: Options, list: seq<int>, freed: seq<int>) {
    batch >= 1
    && multiset(list) + multiset(freed) == multiset(list0) + multiset(PoolBought(list0, locked, batch, count, o))
  }

  ghost predicate HugeKept(list0: seq<int>, batch: nat, n: nat, h: nat, o: Options, list: seq<int>, freed: seq<int>) {
    batch >= 1 && h >= 2
    && multiset(list) + multiset(freed) == multiset(list0) + multiset(HugeBought(list0, batch, n, h, o))
  }

  /** The single pool through a whole get and put. */
  lemma PoolRound(list0: seq<int>, locked: bool, batch: nat, count: nat, o: Options, list: seq<int>, freed: seq<int>, room: bool)
    requires batch >= 1
    requires var g := FromPool(list0, locked, batch, count, o);
             Trimmed(g.list + Swapped(g.pages), list, freed, o.max, batch, room)
    ensures PoolKept(list0, locked, batch, count, o, list, freed)
  {
    var g := FromPool(list0, locked, batch, count, o);
    SwappedMultiset(g.pages);
    TrimmedKeeps(g.list + Swapped(g.pages), list, freed, o.max, batch, room);
    assert multiset(g.list + Swapped(g.pages)) == multiset(g.list) + multiset(Swapped(g.pages));
    PoolConserves(list0, locked, batch, count, o);
  }

  lemma HugeRound(list0: seq<int>, batch: nat, n: nat, h: nat, o: Options, list: seq<int>, freed: seq<int>, room: bool)
    requires batch >= 1 && h >= 2
    requires var g := FromHuge(list0, batch, n, h, o); HugeTrimmed(g.list + g.pages, list, freed, o.max, h, room)
    ensures HugeKept(list0, batch, n, h, o, list, freed)
  {
    var g := FromHuge(list0, batch, n, h, o);
    TrimmedKeeps(g.list + g.pages, list, freed, o.max / h, 0, room);
    assert multiset(g.list + g.pages) == multiset(g.list) + multiset(g.pages);
    HugeConserves(list0, batch, n, h, o);
  }

  /** A get and then, if it succeeded, a put: the array is put into the pools either way. */
  method GetAndPut(pages: array<int>, h: nat, pool: Pool, huge: Pool?, o: Options, room: bool, hugeRoom: bool)
    returns (ok: bool, freed: seq<int>, freedHuge: seq<int>)
    requires Ready(pages, h, pool, huge, o)
    modifies pages, pool, huge
    ensures var p := old(Planned(pages, h, pool, huge, o));
            && ok == p.ok
            && PutInto(Laid(p, h), h, p.list, p.hugeList, pool, huge, freed, freedHuge, o.max, room, hugeRoom)
            && (forall k :: 0 <= k < pages.Length ==> pages[k] == if k < |Laid(p, h)| then Null else old(pages[k]))
  {
    ghost var p := Planned(pages, h, pool, huge, o);
    var heads, singles;
    ok, heads, singles, freed, freedHuge := GetPages(pages, h, pool, huge, o, room, hugeRoom);
    if ok {
      assert pages[..pages.Length] == Laid(p, h);
      freed, freedHuge := PutPages(pages, pages.Length, h, pool, huge, o.max, room, hugeRoom);
    }
  }

  /** Getting and putting through the pools, whether or not the get succeeds: the huge pool gets
      back exactly the blocks and the single pool exactly the single pages, and each then frees
      from its tail what exceeds its limit. No page changes its pool or is lost. */
  method RoundTrip(pages: array<int>, h: nat, pool: Pool, huge: Pool?, o: Options, room: bool, hugeRoom: bool)
    returns (ok: bool, freed: seq<int>, freedHuge: seq<int>)
    requires Ready(pages, h, pool, huge, o)
    requires Pages(SingleStock(pool.list, o)) && Distinct(SingleStock(pool.list, o)) && Pages(HugeStock(StockOf(huge), o))
    modifies pages, pool, huge
    ensures var p := old(Planned(pages, h, pool, huge, o));
            && ok == p.ok
            && Trimmed(p.list + Swapped(p.singles), pool.list, freed, o.max, pool.batch, room)
            && (huge != null ==> HugeTrimmed(p.hugeList + p.heads, huge.list, freedHuge, o.max, h, hugeRoom))
            && (forall k :: 0 <= k < pages.Length ==> pages[k] == if k < |Laid(p, h)| then Null else old(pages[k]))
            && PoolKept(old(pool.list), old(pool.fillLock), pool.batch, Left(pages.Length, p.heads, h), o, pool.list, freed)
    ensures huge != null ==> HugeKept(old(huge.list), huge.batch, pages.Length, h, o, huge.list, freedHuge)
  {
    ghost var p, stock := Planned(pages, h, pool, huge, o), StockOf(huge);
    ghost var list0, locked := pool.list, pool.fillLock;
    PlanReal(list0, locked, pool.batch, stock, pages.Length, h, o);
    LaidSeen(p, h);
    ok, freed, freedHuge := GetAndPut(pages, h, pool, huge, o, room, hugeRoom);
    PoolRound(list0, locked, pool.batch, Left(pages.Length, p.heads, h), o, pool.list, freed, room);
    if huge != null {
      HugeRound(stock.list, huge.batch, pages.Length, h, o, huge.list, freedHuge, hugeRoom);
    }
  }
}
