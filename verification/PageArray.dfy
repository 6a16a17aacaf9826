/** The page array of a translation table, for memory types without a pool: filled
    from the page allocator and given back to it. */
module PageArray {
  import opened Seqs
  import opened PageLayout

  /** Writes one block of h pages from index i on. */
  method PlaceBlock(pages: array<int>, i: nat, p: int, h: nat)
    requires i + h <= pages.Length
    modifies pages
    ensures pages[..] == old(pages[..])[..i] + (Block(p, h) + old(pages[..])[i + h..])
  {
    var j := 0;
    while j < h
      invariant 0 <= j <= h
      invariant forall k :: 0 <= k < pages.Length ==> pages[k] == if i <= k < i + j then p + (k - i) else old(pages[k])
    {
      pages[i + j] := p + j;
      j := j + 1;
    }
  }

  /** Puts one single page at index i, swapped with the one before when it continues it. */
  method PlaceSingle(pages: array<int>, first: nat, i: nat, page: int)
    requires first <= i < pages.Length
    modifies pages
    ensures pages[first..i + 1] == Placed(old(pages[first..i]), page)
    ensures forall k :: 0 <= k < first || i < k < pages.Length ==> pages[k] == old(pages[k])
  {
    var p := page;
    if i > first && pages[i - 1] == p - 1 {
      var tmp := p;
      p := pages[i - 1];
      pages[i - 1] := tmp;
    }
    pages[i] := p;
  }

  /** Tests, with the source's running page pointer, whether h entries ascend from i on. */
  method IsBlock(pages: array<int>, i: nat, n: nat, h: nat) returns (yes: bool)
    requires i < n <= pages.Length && h >= 2
    ensures yes <==> Ascends(pages[i..n], h)
  {
    if n - i < h {
      return false;
    }
    ghost var ps := pages[i..n];
    var p, j := pages[i], 1;
    while j < h
      invariant 1 <= j <= h && p == ps[0] + j - 1
      invariant forall k :: 1 <= k < j ==> ps[k] == ps[0] + k
    {
      p := p + 1;
      assert ps[j] == pages[i + j];
      if p != pages[i + j] {
        return false;
      }
      j := j + 1;
    }
    yes := true;
  }

  /** Clears h entries from i on. */
  method Clear(pages: array<int>, i: nat, h: nat)
    requires i + h <= pages.Length
    modifies pages
    ensures forall k :: 0 <= k < pages.Length ==> pages[k] == if i <= k < i + h then Null else old(pages[k])
  {
    var j := 0;
    while j < h
      invariant 0 <= j <= h
      invariant forall k :: 0 <= k < pages.Length ==> pages[k] == if i <= k < i + j then Null else old(pages[k])
    {
      pages[i + j] := Null;
      j := j + 1;
    }
  }

  /** One more block behind those of done, over an array that was was before them. */
  method AddBlock(pages: array<int>, ghost was: seq<int>, done: seq<int>, p: int, h: nat)
    requires |was| == pages.Length && |Blocks(done, h)| + h <= pages.Length
    requires pages[..] == Blocks(done, h) + was[|Blocks(done, h)|..]
    modifies pages
    ensures |Blocks(done + [p], h)| == |Blocks(done, h)| + h
    ensures pages[..] == Blocks(done + [p], h) + was[|Blocks(done + [p], h)|..]
  {
    ghost var mid := pages[..];
    BlocksMore(done, p, h);
    PlaceBlock(pages, |Blocks(done, h)|, p, h);
    Overwritten(was, Blocks(done, h), Block(p, h), mid, pages[..]);
  }

  /** The huge part of ttm_get_pages without a pool; the allocator hands out the pages of
      huge in turn and then fails. */
  method GetBlocks(pages: array<int>, n: nat, h: nat, huge: seq<int>) returns (heads: seq<int>)
    requires n <= pages.Length && h >= 2
    modifies pages
    ensures heads <= huge && |Blocks(heads, h)| <= n
    ensures heads == huge || n - |Blocks(heads, h)| < h
    ensures pages[..] == Blocks(heads, h) + old(pages[..])[|Blocks(heads, h)|..]
  {
    heads := [];
    var i := 0;
    while n - i >= h && |heads| < |huge|
      invariant heads <= huge && i == |Blocks(heads, h)| <= n
      invariant pages[..] == Blocks(heads, h) + old(pages[..])[i..]
    {
      var p := huge[|heads|];
      AddBlock(pages, old(pages[..]), heads, p, h);
      heads := heads + [p];
      i := i + h;
    }
  }

  lemma BlocksMore(heads: seq<int>, p: int, h: nat)
    ensures Blocks(heads + [p], h) == Blocks(heads, h) + Block(p, h)
    ensures |Blocks(heads + [p], h)| == |Blocks(heads, h)| + h
  {
    assert (heads + [p])[..|heads|] == heads;
  }

  /** Places pages[first + k] := the k-th page of ps, with the swap. */
  method PlaceSingles(pages: array<int>, first: nat, ps: seq<int>)
    requires first + |ps| <= pages.Length
    modifies pages
    ensures pages[..] == old(pages[..])[..first] + (Swapped(ps) + old(pages[..])[first + |ps|..])
  {
    var k := 0;
    assert ps[..0] == [];
    while k < |ps|
      invariant 0 <= k <= |ps|
      invariant pages[first..first + k] == Swapped(ps[..k])
      invariant forall j :: 0 <= j < first || first + k <= j < pages.Length ==> pages[j] == old(pages[j])
    {
      assert ps[..k + 1][..k] == ps[..k];
      PlaceSingle(pages, first, first + k, ps[k]);
      k := k + 1;
    }
    assert ps[..k] == ps;
    Three(pages[..], first, first + k);
    assert pages[..first] == old(pages[..])[..first] && pages[first + k..] == old(pages[..])[first + k..];
  }

  lemma Three(s: seq<int>, i: nat, j: nat)
    requires i <= j <= |s|
    ensures s == s[..i] + (s[i..j] + s[j..])
  {
  }

  /** ttm_get_pages without a pool, for an allocator that hands out huge and single in
      turn and then fails. */
  method GetCached(pages: array<int>, n: nat, h: nat, dma32: bool, huge: seq<int>, single: seq<int>)
    returns (ok: bool, heads: seq<int>, used: seq<int>)
    requires n <= pages.Length && h >= 2
    modifies pages
    ensures dma32 ==> heads == []
    ensures heads <= huge && used <= single
    ensures !dma32 ==> heads == huge || n - |Blocks(heads, h)| < h
    ensures ok ==> |Blocks(heads, h)| + |used| == n
    ensures !ok ==> used == single && |Blocks(heads, h)| + |used| < n
    ensures pages[..] == Blocks(heads, h) + (Swapped(used) + old(pages[..])[|Blocks(heads, h)| + |used|..])
  {
    heads := [];
    if !dma32 {
      heads := GetBlocks(pages, n, h, huge);
    }
    var first := |Blocks(heads, h)|;
    var left := n - first;
    used := if left <= |single| then single[..left] else single;
    ghost var mid := pages[..];
    PlaceSingles(pages, first, used);
    Overwritten(old(pages[..]), Blocks(heads, h), Swapped(used), mid, pages[..]);
    ok := left <= |single|;
  }

  /** Frees the block or the page at index i. was is the array before anything was freed. */
  method FreeAt(pages: array<int>, i: nat, n: nat, h: nat, dma32: bool, ghost was: seq<int>) returns (one: Freed, len: nat)
    requires i < n <= pages.Length && h >= 2 && pages[i] != Null
    requires |was| == pages.Length && pages[i..n] == was[i..n]
    modifies pages
    ensures 1 <= len && i + len <= n
    ensures Classify(was[i..n], h, !dma32) == [one] + Classify(was[i + len..n], h, !dma32)
    ensures forall k :: 0 <= k < pages.Length ==> pages[k] == if i <= k < i + len then Null else old(pages[k])
  {
    ClassifyAt(was, i, n, h, !dma32);
    assert was[i] == was[i..n][0] == pages[i];
    var block := false;
    if !dma32 {
      block := IsBlock(pages, i, n, h);
    }
    one := if block then Huge(pages[i]) else Single(pages[i]);
    len := if block then h else 1;
    Clear(pages, i, len);
  }

  /** ttm_put_pages without a pool: what is freed, and at which order. */
  method PutCached(pages: array<int>, n: nat, h: nat, dma32: bool) returns (freed: seq<Freed>)
    requires n <= pages.Length && h >= 2
    modifies pages
    ensures freed == Classify(old(pages[..n]), h, !dma32)
    ensures forall k :: 0 <= k < pages.Length ==> pages[k] == if k < n then Null else old(pages[k])
  {
    freed := [];
    ghost var was := pages[..];
    var i := 0;
    assert was[0..n] == was[..n];
    while i < n
      invariant 0 <= i <= n
      invariant forall k :: 0 <= k < pages.Length ==> pages[k] == if k < i then Null else was[k]
      invariant freed + Classify(was[i..n], h, !dma32) == Classify(was[..n], h, !dma32)
    {
      if pages[i] == Null {
        ClassifyAt(was, i, n, h, !dma32);
        i := i + 1;
        continue;
      }
      assert pages[i..n] == was[i..n];
      var one, len := FreeAt(pages, i, n, h, dma32, was);
      Appended(freed, one, Classify(was[i + len..n], h, !dma32));
      freed := freed + [one];
      i := i + len;
    }
    assert was[i..n] == [];
  }

  /** Getting and putting: for any distinct pages, what goes back is what was allocated,
      at the order it was allocated, even after a failed get. */
  method RoundTrip(pages: array<int>, h: nat, dma32: bool, huge: seq<int>, single: seq<int>)
    returns (ok: bool, heads: seq<int>, used: seq<int>, freed: seq<Freed>)
    requires h >= 2 && AllNull(pages[..]) && Pages(huge) && Pages(single) && Distinct(single)
    modifies pages
    ensures freed == AsHuge(heads) + AsSingle(Swapped(used)) && multiset(Swapped(used)) == multiset(used)
    ensures heads <= huge && used <= single && (dma32 ==> heads == [])
    ensures !dma32 ==> heads == huge || pages.Length - |Blocks(heads, h)| < h
    ensures ok ==> |Blocks(heads, h)| + |used| == pages.Length
    ensures !ok ==> used == single && |Blocks(heads, h)| + |used| < pages.Length
    ensures AllNull(pages[..])
  {
    ok, heads, used := GetCached(pages, pages.Length, h, dma32, huge, single);
    Returned(pages[..], heads, used, old(pages[..])[|Blocks(heads, h)| + |used|..], h, dma32);
    assert pages[..pages.Length] == pages[..];
    freed := PutCached(pages, pages.Length, h, dma32);
  }

  lemma Returned(all: seq<int>, heads: seq<int>, used: seq<int>, zs: seq<int>, h: nat, dma32: bool)
    requires h >= 2 && Pages(heads) && Pages(used) && Distinct(used) && AllNull(zs)
    requires all == Blocks(heads, h) + (Swapped(used) + zs) && (dma32 ==> heads == [])
    ensures Classify(all, h, !dma32) == AsHuge(heads) + AsSingle(Swapped(used))
    ensures multiset(Swapped(used)) == multiset(used)
  {
    if dma32 {
      ClassifySmall(used, zs, h);
      assert all == Swapped(used) + zs;
      assert AsHuge(heads) == [];
    } else {
      ClassifyLayout(heads, used, zs, h);
    }
  }
}
