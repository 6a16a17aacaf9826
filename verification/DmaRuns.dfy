/** Mapping the pages of a table for DMA, one mapping for each maximal run of
    neighbouring pages, and unmapping them again. Page 0 is the null page. */
module DmaRuns {
  import opened Seqs

  const PageSize: int := 4096

  /** Address and number of pages of one mapping. */
  datatype Mapping = Mapping(address: int, pages: nat)

  /** Where the run that starts at i ends, looked for from j on. */
  function RunEnd(ps: seq<int>, i: nat, j: nat): (e: nat)
    requires i < j <= |ps| && forall k :: i <= k < j ==> ps[k] == ps[i] + (k - i)
    ensures j <= e <= |ps| && (forall k :: i <= k < e ==> ps[k] == ps[i] + (k - i))
    ensures e < |ps| ==> ps[e] != ps[i] + (e - i)
    decreases |ps| - j
  {
    if j < |ps| && ps[j] == ps[i] + (j - i) then RunEnd(ps, i, j + 1) else j
  }

  function End(ps: seq<int>, i: nat): (e: nat)
    requires i < |ps|
    ensures i < e <= |ps|
  {
    RunEnd(ps, i, i + 1)
  }

  /** The mappings of the runs from i on; bus gives the address for the run that starts at an index. */
  function Maps(ps: seq<int>, bus: nat -> int, i: nat): seq<Mapping>
    requires i <= |ps|
    decreases |ps| - i
  {
    if i == |ps| then [] else [Mapping(bus(i), End(ps, i) - i)] + Maps(ps, bus, End(ps, i))
  }

  /** Where the run that holds page k starts. */
  function StartOf(ps: seq<int>, k: nat): (i: nat)
    requires k < |ps|
    ensures i <= k
  {
    if k > 0 && ps[k] == ps[k - 1] + 1 then StartOf(ps, k - 1) else k
  }

  /** Page k has the address of its run plus its offset in it. */
  predicate AddressedAt(ps: seq<int>, bus: nat -> int, dma: seq<int>, k: nat)
    requires k < |ps| == |dma|
  {
    dma[k] == bus(StartOf(ps, k)) + (k - StartOf(ps, k)) * PageSize
  }

  ghost predicate Addressed(ps: seq<int>, bus: nat -> int, dma: seq<int>) {
    |ps| == |dma| && forall k: nat :: k < |ps| ==> AddressedAt(ps, bus, dma, k)
  }

  /** Between runs. */
  predicate Boundary(ps: seq<int>, i: nat)
    requires i <= |ps|
  {
    i == |ps| || StartOf(ps, i) == i
  }

  /** All pages up to the end of a run belong to it, and the next run starts there. */
  lemma {:induction false} SameRun(ps: seq<int>, i: nat, k: nat)
    requires i <= k < |ps| && StartOf(ps, i) == i && k < End(ps, i)
    ensures StartOf(ps, k) == i
    decreases k
  {
    if k > i {
      SameRun(ps, i, k - 1);
    }
  }

  lemma NextRun(ps: seq<int>, i: nat)
    requires i < |ps| && StartOf(ps, i) == i
    ensures Boundary(ps, End(ps, i))
  {
    var e := End(ps, i);
    assert ps[e - 1] == ps[i] + (e - 1 - i);
  }

  /** What the unmapping loop unmaps from i on. */
  function Unmaps(ps: seq<int>, dma: seq<int>, i: nat): seq<Mapping>
    requires i <= |ps| == |dma|
    decreases |ps| - i
  {
    if i == |ps| then []
    else if dma[i] == 0 || ps[i] == 0 then Unmaps(ps, dma, i + 1)
    else [Mapping(dma[i], End(ps, i) - i)] + Unmaps(ps, dma, End(ps, i))
  }

  /** No run from i on starts at address 0 or with the null page. */
  ghost predicate AllNonzero(ps: seq<int>, bus: nat -> int, i: nat)
    requires i <= |ps|
    decreases |ps| - i
  {
    i == |ps| || (bus(i) != 0 && ps[i] != 0 && AllNonzero(ps, bus, End(ps, i)))
  }

  function Total(ms: seq<Mapping>): nat {
    if ms == [] then 0 else ms[0].pages + Total(ms[1..])
  }

  lemma {:induction false} MapsTotal(ps: seq<int>, bus: nat -> int, i: nat)
    requires i <= |ps|
    ensures Total(Maps(ps, bus, i)) == |ps| - i
    decreases |ps| - i
  {
    if i < |ps| {
      MapsTotal(ps, bus, End(ps, i));
    }
  }

  lemma {:induction false} UnmapsTotal(ps: seq<int>, dma: seq<int>, i: nat)
    requires i <= |ps| == |dma|
    ensures Total(Unmaps(ps, dma, i)) <= |ps| - i
    decreases |ps| - i
  {
    if i < |ps| {
      if dma[i] == 0 || ps[i] == 0 {
        UnmapsTotal(ps, dma, i + 1);
      } else {
        UnmapsTotal(ps, dma, End(ps, i));
      }
    }
  }

  /** Unmapping undoes mapping, pair by pair, exactly when no run got address 0. */
  lemma {:induction false} UnmapsIff(ps: seq<int>, bus: nat -> int, dma: seq<int>, i: nat)
    requires i <= |ps| && Boundary(ps, i) && Addressed(ps, bus, dma)
    ensures Unmaps(ps, dma, i) == Maps(ps, bus, i) <==> AllNonzero(ps, bus, i)
    decreases |ps| - i
  {
    if i < |ps| {
      assert AddressedAt(ps, bus, dma, i);
      if bus(i) == 0 || ps[i] == 0 {
        MapsTotal(ps, bus, i);
        UnmapsTotal(ps, dma, i + 1);
      } else {
        var e := End(ps, i);
        NextRun(ps, i);
        UnmapsIff(ps, bus, dma, e);
        assert Maps(ps, bus, i)[1..] == Maps(ps, bus, e);
        assert Unmaps(ps, dma, i)[1..] == Unmaps(ps, dma, e);
      }
    }
  }

  /** A zero bus address does break the round trip: a run of two pages mapped at 0 is
      unmapped as one page at the next address. */
  lemma ZeroAddressBreaks(ps: seq<int>, dma: seq<int>, bus: nat -> int)
    requires ps == [7, 8] && bus(0) == 0 && Addressed(ps, bus, dma)
    ensures Maps(ps, bus, 0) == [Mapping(0, 2)] && Unmaps(ps, dma, 0) == [Mapping(PageSize, 1)]
  {
    assert End(ps, 0) == 2 && End(ps, 1) == 2;
    assert Maps(ps, bus, 2) == [];
    assert StartOf(ps, 0) == 0 && StartOf(ps, 1) == 0;
    assert AddressedAt(ps, bus, dma, 0) && AddressedAt(ps, bus, dma, 1);
    assert Unmaps(ps, dma, 1) == [Mapping(PageSize, 1)] + Unmaps(ps, dma, 2);
  }

  /** The search for the end of a run, with a running page pointer. */
  method FindEnd(pages: array<int>, i: nat) returns (n: nat)
    requires i < pages.Length
    ensures n == End(pages[..], i) - i
  {
    var p := pages[i];
    n := 1;
    var j := i + 1;
    ghost var ps := pages[..];
    while j < pages.Length
      invariant i < j <= |ps| && n == j - i && p == ps[i] + (j - i) - 1
      invariant forall k :: i <= k < j ==> ps[k] == ps[i] + (k - i)
      invariant RunEnd(ps, i, j) == End(ps, i)
    {
      p := p + 1;
      if p != pages[j] {
        break;
      }
      n := n + 1;
      j := j + 1;
    }
  }

  /** Fills the addresses of one run: each page one page size after the one before. */
  method FillRun(dma: array<int>, i: nat, n: nat, address: int)
    requires 1 <= n && i + n <= dma.Length
    modifies dma
    ensures forall k :: 0 <= k < dma.Length ==>
              dma[k] == if i <= k < i + n then address + (k - i) * PageSize else old(dma[k])
  {
    dma[i] := address;
    var j, at := 1, i;
    while j < n
      invariant 1 <= j <= n && at == i + j - 1
      invariant forall k :: 0 <= k < dma.Length ==>
                  dma[k] == if i <= k < i + j then address + (k - i) * PageSize else old(dma[k])
    {
      dma[at + 1] := dma[at] + PageSize;
      at := at + 1;
      j := j + 1;
    }
  }

  ghost predicate AddressedBelow(ps: seq<int>, bus: nat -> int, dma: seq<int>, i: nat) {
    i <= |ps| == |dma| && forall k: nat :: k < i ==> AddressedAt(ps, bus, dma, k)
  }

  /** Filling one more run addresses all pages up to its end. */
  lemma RunAddressed(ps: seq<int>, bus: nat -> int, before: seq<int>, dma: seq<int>, i: nat)
    requires i < |ps| == |dma| && StartOf(ps, i) == i && AddressedBelow(ps, bus, before, i)
    requires forall k :: 0 <= k < i ==> dma[k] == before[k]
    requires forall k :: i <= k < End(ps, i) ==> dma[k] == bus(i) + (k - i) * PageSize
    ensures AddressedBelow(ps, bus, dma, End(ps, i))
  {
    forall k: nat | k < End(ps, i)
      ensures AddressedAt(ps, bus, dma, k)
    {
      if k < i {
        assert AddressedAt(ps, bus, before, k);
      } else {
        SameRun(ps, i, k);
      }
    }
  }

  /** One turn of the mapping loop. */
  lemma MapsAt(ps: seq<int>, bus: nat -> int, i: nat, ms: seq<Mapping>)
    requires i < |ps|
    ensures ms + Maps(ps, bus, i) == (ms + [Mapping(bus(i), End(ps, i) - i)]) + Maps(ps, bus, End(ps, i))
  {
    Appended(ms, Mapping(bus(i), End(ps, i) - i), Maps(ps, bus, End(ps, i)));
  }

  /** One turn of the unmapping loop. */
  lemma UnmapsAt(ps: seq<int>, dma: seq<int>, i: nat, ms: seq<Mapping>)
    requires i < |ps| == |dma|
    ensures dma[i] == 0 || ps[i] == 0 ==> ms + Unmaps(ps, dma, i) == ms + Unmaps(ps, dma, i + 1)
    ensures !(dma[i] == 0 || ps[i] == 0) ==>
              ms + Unmaps(ps, dma, i) == (ms + [Mapping(dma[i], End(ps, i) - i)]) + Unmaps(ps, dma, End(ps, i))
  {
    Appended(ms, Mapping(dma[i], End(ps, i) - i), Unmaps(ps, dma, End(ps, i)));
  }

  /** Maps the run that starts at i, which ends at next. */
  method MapRun(pages: array<int>, dma: array<int>, bus: nat -> int, i: nat, maps: seq<Mapping>)
    returns (next: nat, maps': seq<Mapping>)
    requires dma != pages && dma.Length == pages.Length && i < pages.Length
    requires Boundary(pages[..], i) && AddressedBelow(pages[..], bus, dma[..], i)
    modifies dma
    ensures i < next <= pages.Length && Boundary(pages[..], next) && AddressedBelow(pages[..], bus, dma[..], next)
    ensures maps' + Maps(pages[..], bus, next) == maps + Maps(pages[..], bus, i)
  {
    ghost var before := dma[..];
    var n := FindEnd(pages, i);
    FillRun(dma, i, n, bus(i));
    RunAddressed(pages[..], bus, before, dma[..], i);
    NextRun(pages[..], i);
    MapsAt(pages[..], bus, i, maps);
    maps' := maps + [Mapping(bus(i), n)];
    next := i + n;
  }

  /** The mapping loop of ttm_populate_and_map_pages, when every mapping succeeds. */
  method MapPages(pages: array<int>, dma: array<int>, bus: nat -> int) returns (maps: seq<Mapping>)
    requires dma != pages && dma.Length == pages.Length
    modifies dma
    ensures Addressed(pages[..], bus, dma[..]) && maps == Maps(pages[..], bus, 0)
  {
    var i: nat := 0;
    maps := [];
    while i < pages.Length
      invariant i <= pages.Length && Boundary(pages[..], i) && AddressedBelow(pages[..], bus, dma[..], i)
      invariant maps + Maps(pages[..], bus, i) == Maps(pages[..], bus, 0)
      decreases pages.Length - i
    {
      i, maps := MapRun(pages, dma, bus, i, maps);
    }
  }

  /** The loop of ttm_unmap_and_unpopulate_pages. */
  method UnmapPages(pages: array<int>, dma: array<int>) returns (unmaps: seq<Mapping>)
    requires dma.Length == pages.Length
    ensures unmaps == Unmaps(pages[..], dma[..], 0)
  {
    ghost var ps, ds := pages[..], dma[..];
    var i := 0;
    unmaps := [];
    while i < pages.Length
      invariant 0 <= i <= |ps| && unmaps + Unmaps(ps, ds, i) == Unmaps(ps, ds, 0)
    {
      UnmapsAt(ps, ds, i, unmaps);
      if dma[i] == 0 || pages[i] == 0 {
        i := i + 1;
        continue;
      }
      var n := FindEnd(pages, i);
      unmaps := unmaps + [Mapping(dma[i], n)];
      i := i + n;
    }
  }

  /** Both loops in turn: the same list of addresses and lengths comes back exactly when no
      run was mapped at address 0. */
  method RoundTrip(pages: array<int>, dma: array<int>, bus: nat -> int) returns (maps: seq<Mapping>, unmaps: seq<Mapping>)
    requires dma != pages && dma.Length == pages.Length
    modifies dma
    ensures Addressed(pages[..], bus, dma[..]) && maps == Maps(pages[..], bus, 0)
    ensures unmaps == Unmaps(pages[..], dma[..], 0)
    ensures maps == unmaps <==> AllNonzero(pages[..], bus, 0)
  {
    maps := MapPages(pages, dma, bus);
    unmaps := UnmapPages(pages, dma);
    UnmapsIff(pages[..], bus, dma[..], 0);
  }
}
