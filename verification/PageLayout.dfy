/** How ttm_get_pages lays pages out in the array, and how ttm_put_pages tells huge
    blocks from single pages again: by looking for an ascending run. A page is a
    positive number; neighbouring pages have neighbouring numbers. */
module PageLayout {
  import opened Seqs

  const Null: int := 0

  datatype Freed = Huge(page: int) | Single(page: int)

  // ---- Layout ----

  /** h pages from p up. */
  function Block(p: int, h: nat): seq<int> {
    seq(h, j => p + j)
  }

  function Blocks(heads: seq<int>, h: nat): seq<int> {
    if heads == [] then [] else Blocks(heads[..|heads| - 1], h) + Block(heads[|heads| - 1], h)
  }

  /** One more single page, swapped with the last when it would continue it. */
  function Placed(s: seq<int>, p: int): (r: seq<int>)
    ensures |r| == |s| + 1
  {
    if s != [] && s[|s| - 1] == p - 1 then s[..|s| - 1] + [p, p - 1] else s + [p]
  }

  function Swapped(ps: seq<int>): (r: seq<int>)
    ensures |r| == |ps|
  {
    if ps == [] then [] else Placed(Swapped(ps[..|ps| - 1]), ps[|ps| - 1])
  }

  predicate NoAscent(ps: seq<int>) {
    forall i :: 0 <= i < |ps| - 1 ==> ps[i + 1] != ps[i] + 1
  }

  predicate Pages(ps: seq<int>) {
    forall i :: 0 <= i < |ps| ==> ps[i] > Null
  }

  lemma PlacedMultiset(s: seq<int>, p: int)
    ensures multiset(Placed(s, p)) == multiset(s) + multiset{p}
  {
    if s != [] {
      assert s == s[..|s| - 1] + [s[|s| - 1]];
    }
  }

  lemma {:induction false} SwappedMultiset(ps: seq<int>)
    ensures multiset(Swapped(ps)) == multiset(ps)
  {
    if ps != [] {
      var n := |ps| - 1;
      assert ps == ps[..n] + [ps[n]];
      SwappedMultiset(ps[..n]);
      PlacedMultiset(Swapped(ps[..n]), ps[n]);
    }
  }

  lemma SwappedMembers(ps: seq<int>, p: int)
    ensures p in Swapped(ps) <==> p in ps
  {
    SwappedMultiset(ps);
    assert p in Swapped(ps) <==> p in multiset(Swapped(ps));
    assert p in ps <==> p in multiset(ps);
  }

  /** Swapping keeps ascents out: the page before the swapped pair cannot be p - 1, which sits in the pair. */
  lemma PlacedNoAscent(s: seq<int>, p: int)
    requires NoAscent(s) && Distinct(s) && p !in s
    ensures NoAscent(Placed(s, p)) && Distinct(Placed(s, p))
  {
    var n := |s| - 1;
    if s != [] && s[n] == p - 1 {
      var r := Placed(s, p);
      assert forall i :: 0 <= i < n ==> r[i] == s[i] && s[i] != s[n];
    }
  }

  /** For any distinct pages the single region has no ascending neighbours. */
  lemma {:induction false} SwappedNoAscent(ps: seq<int>)
    requires Distinct(ps)
    ensures NoAscent(Swapped(ps)) && Distinct(Swapped(ps))
  {
    if ps != [] {
      var n := |ps| - 1;
      SwappedNoAscent(ps[..n]);
      SwappedMembers(ps[..n], ps[n]);
      PlacedNoAscent(Swapped(ps[..n]), ps[n]);
    }
  }

  // ---- Classification ----

  /** The first h entries ascend. */
  predicate Ascends(ps: seq<int>, h: nat) {
    |ps| >= h && forall j :: 1 <= j < h ==> ps[j] == ps[0] + j
  }

  /** What ttm_put_pages frees when there is no pool for the memory type. */
  function Classify(ps: seq<int>, h: nat, mayBeHuge: bool): seq<Freed>
    requires h >= 2
    decreases |ps|
  {
    if ps == [] then []
    else if ps[0] == Null then Classify(ps[1..], h, mayBeHuge)
    else if mayBeHuge && Ascends(ps, h) then [Huge(ps[0])] + Classify(ps[h..], h, mayBeHuge)
    else [Single(ps[0])] + Classify(ps[1..], h, mayBeHuge)
  }

  /** The leading blocks, by their heads: what goes to the huge pool. */
  function Leading(ps: seq<int>, h: nat): seq<int>
    requires h >= 2
    decreases |ps|
  {
    if |ps| >= h && ps[0] != Null && Ascends(ps, h) then [ps[0]] + Leading(ps[h..], h) else []
  }

  function AfterLeading(ps: seq<int>, h: nat): seq<int>
    requires h >= 2
    decreases |ps|
  {
    if |ps| >= h && ps[0] != Null && Ascends(ps, h) then AfterLeading(ps[h..], h) else ps
  }

  function NonNull(ps: seq<int>): seq<int> {
    if ps == [] then [] else (if ps[0] == Null then [] else [ps[0]]) + NonNull(ps[1..])
  }

  function AsHuge(heads: seq<int>): seq<Freed> {
    if heads == [] then [] else [Huge(heads[0])] + AsHuge(heads[1..])
  }

  function AsSingle(ps: seq<int>): seq<Freed> {
    if ps == [] then [] else [Single(ps[0])] + AsSingle(ps[1..])
  }

  predicate AllNull(zs: seq<int>) {
    forall i :: 0 <= i < |zs| ==> zs[i] == Null
  }

  lemma {:induction false} ClassifyNulls(zs: seq<int>, h: nat, mayBeHuge: bool)
    requires h >= 2 && AllNull(zs)
    ensures Classify(zs, h, mayBeHuge) == [] && NonNull(zs) == []
  {
    if zs != [] {
      ClassifyNulls(zs[1..], h, mayBeHuge);
    }
  }

  /** Single pages are never mistaken for a block. */
  lemma {:induction false} ClassifySingles(ps: seq<int>, zs: seq<int>, h: nat, mayBeHuge: bool)
    requires h >= 2 && Pages(ps) && AllNull(zs) && (mayBeHuge ==> NoAscent(ps))
    ensures Classify(ps + zs, h, mayBeHuge) == AsSingle(ps)
    ensures NonNull(ps + zs) == ps
    ensures mayBeHuge ==> Leading(ps + zs, h) == [] && AfterLeading(ps + zs, h) == ps + zs
  {
    if ps == [] {
      assert ps + zs == zs;
      ClassifyNulls(zs, h, mayBeHuge);
    } else {
      var all := ps + zs;
      assert all[1..] == ps[1..] + zs;
      ClassifySingles(ps[1..], zs, h, mayBeHuge);
      if mayBeHuge && |all| >= h {
        assert all[1] != all[0] + 1;
        assert !Ascends(all, h);
      }
    }
  }

  lemma {:induction false} BlocksFirst(heads: seq<int>, h: nat)
    requires heads != []
    ensures Blocks(heads, h) == Block(heads[0], h) + Blocks(heads[1..], h)
  {
    var n := |heads| - 1;
    if n > 0 {
      BlocksFirst(heads[..n], h);
      assert heads[..n][1..] == heads[1..][..n - 1];
      assert heads[1..][|heads[1..]| - 1] == heads[n];
    }
  }

  /** A block in front is seen as one, and the scan goes on behind it. */
  lemma BlockFirst(p: int, h: nat, more: seq<int>)
    requires h >= 2 && p > Null
    ensures Classify(Block(p, h) + more, h, true) == [Huge(p)] + Classify(more, h, true)
    ensures Leading(Block(p, h) + more, h) == [p] + Leading(more, h)
    ensures AfterLeading(Block(p, h) + more, h) == AfterLeading(more, h)
  {
    var all := Block(p, h) + more;
    assert forall j :: 0 <= j < h ==> all[j] == p + j;
    assert Ascends(all, h) && all[0] == p;
    assert all[h..] == more;
  }

  /** The layout with its first block apart. */
  lemma LayoutFirst(heads: seq<int>, h: nat, rest: seq<int>)
    requires heads != []
    ensures Blocks(heads, h) + rest == Block(heads[0], h) + (Blocks(heads[1..], h) + rest)
  {
    BlocksFirst(heads, h);
  }

  /** Huge blocks come back as huge and whatever follows is classified on its own. */
  lemma {:induction false} ClassifyBlocks(heads: seq<int>, rest: seq<int>, h: nat)
    requires h >= 2 && Pages(heads)
    ensures Classify(Blocks(heads, h) + rest, h, true) == AsHuge(heads) + Classify(rest, h, true)
    decreases |heads|
  {
    if heads == [] {
      assert Blocks(heads, h) + rest == rest;
    } else {
      LayoutFirst(heads, h, rest);
      BlockFirst(heads[0], h, Blocks(heads[1..], h) + rest);
      ClassifyBlocks(heads[1..], rest, h);
      Prepended(Huge(heads[0]), AsHuge(heads[1..]), Classify(rest, h, true));
    }
  }

  lemma {:induction false} LeadingBlocks(heads: seq<int>, rest: seq<int>, h: nat)
    requires h >= 2 && Pages(heads)
    ensures Leading(Blocks(heads, h) + rest, h) == heads + Leading(rest, h)
    ensures AfterLeading(Blocks(heads, h) + rest, h) == AfterLeading(rest, h)
    decreases |heads|
  {
    if heads == [] {
      assert Blocks(heads, h) + rest == rest;
    } else {
      LayoutFirst(heads, h, rest);
      BlockFirst(heads[0], h, Blocks(heads[1..], h) + rest);
      LeadingBlocks(heads[1..], rest, h);
      Prepended(heads[0], heads[1..], Leading(rest, h));
      assert heads == [heads[0]] + heads[1..];
    }
  }

  lemma SwappedPages(ps: seq<int>)
    requires Pages(ps)
    ensures Pages(Swapped(ps))
  {
    forall i | 0 <= i < |Swapped(ps)|
      ensures Swapped(ps)[i] > Null
    {
      SwappedMembers(ps, Swapped(ps)[i]);
    }
  }

  /** Pages laid out by ttm_get_pages come back at the order they were allocated: blocks
      as huge, single pages as single, in array order, also when the tail of the
      array was never filled. */
  lemma ClassifyLayout(heads: seq<int>, ps: seq<int>, zs: seq<int>, h: nat)
    requires h >= 2 && Pages(heads) && Pages(ps) && Distinct(ps) && AllNull(zs)
    ensures Classify(Blocks(heads, h) + (Swapped(ps) + zs), h, true) == AsHuge(heads) + AsSingle(Swapped(ps))
    ensures Leading(Blocks(heads, h) + (Swapped(ps) + zs), h) == heads
    ensures NonNull(AfterLeading(Blocks(heads, h) + (Swapped(ps) + zs), h)) == Swapped(ps)
    ensures multiset(Swapped(ps)) == multiset(ps)
  {
    SwappedNoAscent(ps);
    SwappedPages(ps);
    SwappedMultiset(ps);
    ClassifySingles(Swapped(ps), zs, h, true);
    ClassifyBlocks(heads, Swapped(ps) + zs, h);
    LeadingBlocks(heads, Swapped(ps) + zs, h);
  }

  /** The same without huge pages at all, as for DMA32. */
  lemma ClassifySmall(ps: seq<int>, zs: seq<int>, h: nat)
    requires h >= 2 && Pages(ps) && AllNull(zs)
    ensures Classify(Swapped(ps) + zs, h, false) == AsSingle(Swapped(ps))
    ensures multiset(Swapped(ps)) == multiset(ps)
  {
    SwappedMultiset(ps);
    SwappedPages(ps);
    ClassifySingles(Swapped(ps), zs, h, false);
  }

  /** One step of the scan, in terms of array positions. */
  lemma ClassifyAt(ps: seq<int>, i: nat, n: nat, h: nat, mayBeHuge: bool)
    requires i < n <= |ps| && h >= 2
    ensures ps[i] == Null ==> Classify(ps[i..n], h, mayBeHuge) == Classify(ps[i + 1..n], h, mayBeHuge)
    ensures ps[i] != Null && mayBeHuge && Ascends(ps[i..n], h) ==>
              i + h <= n && Classify(ps[i..n], h, mayBeHuge) == [Huge(ps[i])] + Classify(ps[i + h..n], h, mayBeHuge)
    ensures ps[i] != Null && !(mayBeHuge && Ascends(ps[i..n], h)) ==>
              Classify(ps[i..n], h, mayBeHuge) == [Single(ps[i])] + Classify(ps[i + 1..n], h, mayBeHuge)
  {
    assert ps[i..n][1..] == ps[i + 1..n];
    if Ascends(ps[i..n], h) {
      assert ps[i..n][h..] == ps[i + h..n];
    }
  }
}
