/** The MMU notifier's interval set. Registering merges every overlapping interval
    into one; an invalidation walks the overlapping intervals. */
module MnTree {
  import opened Seqs

  /** A user range of size pages' worth of bytes; size is at least one. */
  datatype Buffer = Buffer(id: nat, addr: int, size: int)

  datatype Node = Node(start: int, last: int, bos: seq<Buffer>)

  predicate Overlap(s1: int, l1: int, s2: int, l2: int) {
    s1 <= l2 && s2 <= l1
  }

  predicate Hits(n: Node, start: int, last: int) {
    Overlap(n.start, n.last, start, last)
  }

  /** An invalidated range, with the buffers that the current task itself is faulting in. */
  datatype Range = Range(start: int, last: int, own: set<Buffer>)

  /** gsgpu_ttm_tt_affect_userptr. */
  predicate Affects(b: Buffer, q: Range) {
    !(b.addr > q.last || b.addr + b.size <= q.start) && b !in q.own
  }

  predicate Within(b: Buffer, start: int, last: int) {
    b.size >= 1 && start <= b.addr && b.addr + b.size - 1 <= last
  }

  predicate NodeOk(n: Node) {
    && n.start <= n.last && n.bos != []
    && forall b :: b in n.bos ==> Within(b, n.start, n.last)
  }

  /** In address order and pairwise disjoint. */
  predicate Ordered(ns: seq<Node>) {
    forall i, j :: 0 <= i < j < |ns| ==> ns[i].last < ns[j].start
  }

  function Flat(ns: seq<Node>): seq<Buffer> {
    if ns == [] then [] else ns[0].bos + Flat(ns[1..])
  }

  ghost predicate TreeOk(ns: seq<Node>) {
    && (forall i :: 0 <= i < |ns| ==> NodeOk(ns[i]))
    && Ordered(ns)
    && Distinct(Flat(ns))
  }

  predicate In(n: Node, x: int) {
    n.start <= x <= n.last
  }

  ghost predicate Covered(ns: seq<Node>, x: int) {
    exists i :: 0 <= i < |ns| && In(ns[i], x)
  }

  // ---- Flat lists ----

  lemma {:induction false} FlatConcat(ms: seq<Node>, ns: seq<Node>)
    ensures Flat(ms + ns) == Flat(ms) + Flat(ns)
  {
    if ms == [] {
      assert ms + ns == ns;
    } else {
      assert (ms + ns)[1..] == ms[1..] + ns;
      FlatConcat(ms[1..], ns);
      assert ms[0].bos + (Flat(ms[1..]) + Flat(ns)) == (ms[0].bos + Flat(ms[1..])) + Flat(ns);
    }
  }

  /** The flat list around node i. */
  lemma FlatAt(ns: seq<Node>, i: nat)
    requires i < |ns|
    ensures Flat(ns) == Flat(ns[..i]) + ns[i].bos + Flat(ns[i + 1..])
    ensures Flat(ns[..i] + ns[i + 1..]) == Flat(ns[..i]) + Flat(ns[i + 1..])
  {
    assert ns == ns[..i] + ns[i..];
    FlatConcat(ns[..i], ns[i..]);
    assert ns[i..][1..] == ns[i + 1..];
    FlatConcat(ns[..i], ns[i + 1..]);
  }

  lemma FlatRemove(ns: seq<Node>, i: nat)
    requires i < |ns|
    ensures multiset(Flat(ns)) == multiset(Flat(ns[..i] + ns[i + 1..])) + multiset(ns[i].bos)
  {
    FlatAt(ns, i);
  }

  lemma {:induction false} FlatMember(ns: seq<Node>, b: Buffer)
    ensures b in Flat(ns) <==> exists i :: 0 <= i < |ns| && b in ns[i].bos
  {
    if ns != [] {
      FlatMember(ns[1..], b);
      if exists i :: 0 <= i < |ns| && b in ns[i].bos {
        var i :| 0 <= i < |ns| && b in ns[i].bos;
        assert i > 0 ==> b in ns[1..][i - 1].bos;
      }
    }
  }

  /** Every registered buffer is in exactly one node, whose interval covers it. */
  lemma OneNode(ns: seq<Node>, b: Buffer)
    requires TreeOk(ns) && b in Flat(ns)
    ensures exists i :: 0 <= i < |ns| && b in ns[i].bos && Within(b, ns[i].start, ns[i].last)
                        && forall j :: 0 <= j < |ns| && b in ns[j].bos ==> j == i
  {
    FlatMember(ns, b);
    var i :| 0 <= i < |ns| && b in ns[i].bos;
    assert NodeOk(ns[i]);
    forall j | 0 <= j < |ns| && b in ns[j].bos
      ensures j == i
    {
      assert NodeOk(ns[j]) && Within(b, ns[j].start, ns[j].last);
    }
  }

  // ---- Removing and inserting ----

  lemma RemoveCovers(ns: seq<Node>, i: nat, x: int)
    requires i < |ns|
    ensures Covered(ns, x) <==> Covered(ns[..i] + ns[i + 1..], x) || In(ns[i], x)
  {
    var ms := ns[..i] + ns[i + 1..];
    if Covered(ns, x) && !In(ns[i], x) {
      var k :| 0 <= k < |ns| && In(ns[k], x);
      assert ms[if k < i then k else k - 1] == ns[k];
    }
    if Covered(ms, x) {
      var k :| 0 <= k < |ms| && In(ms[k], x);
      assert ns[if k < i then k else k + 1] == ms[k];
    }
  }

  /** Inserted at p, between the nodes that end before it and those that start after it. */
  lemma InsertOrdered(ns: seq<Node>, p: nat, n: Node)
    requires Ordered(ns) && n.start <= n.last && p <= |ns|
    requires forall i :: 0 <= i < p ==> ns[i].last < n.start
    requires forall i :: p <= i < |ns| ==> n.last < ns[i].start
    ensures Ordered(ns[..p] + [n] + ns[p..])
  {
    var ms := ns[..p] + [n] + ns[p..];
    forall i, j | 0 <= i < j < |ms|
      ensures ms[i].last < ms[j].start
    {
      assert i < p ==> ms[i] == ns[i];
      assert p < j ==> ms[j] == ns[j - 1];
      assert j < p ==> ms[j] == ns[j];
      assert p < i ==> ms[i] == ns[i - 1];
    }
  }

  lemma InsertFlat(ns: seq<Node>, p: nat, n: Node, ms: seq<Node>)
    requires p < |ms| && ms[p] == n && ms[..p] + ms[p + 1..] == ns
    ensures multiset(Flat(ms)) == multiset(Flat(ns)) + multiset(n.bos)
  {
    FlatRemove(ms, p);
  }

  /** Before the first node that starts beyond it, a node that hits nothing fits. */
  lemma InsertPlace(ns: seq<Node>, p: nat, n: Node)
    requires Ordered(ns) && n.start <= n.last && p <= |ns|
    requires forall i :: 0 <= i < |ns| ==> ns[i].start <= ns[i].last && !Hits(ns[i], n.start, n.last)
    requires forall i :: 0 <= i < p ==> ns[i].start <= n.last
    requires p < |ns| ==> ns[p].start > n.last
    ensures forall i :: 0 <= i < p ==> ns[i].last < n.start
    ensures forall i :: p <= i < |ns| ==> n.last < ns[i].start
  {
    forall i | p <= i < |ns|
      ensures n.last < ns[i].start
    {
      assert i > p ==> ns[p].last < ns[i].start;
    }
  }

  lemma RemoveOrdered(ns: seq<Node>, i: nat)
    requires i < |ns| && Ordered(ns)
    ensures Ordered(ns[..i] + ns[i + 1..])
  {
    var ms := ns[..i] + ns[i + 1..];
    forall j, k | 0 <= j < k < |ms|
      ensures ms[j].last < ms[k].start
    {
      var j', k' := if j < i then j else j + 1, if k < i then k else k + 1;
      assert ms[j] == ns[j'] && ms[k] == ns[k'];
    }
  }

  /** Everything about inserting before the first node that starts beyond the new one. */
  lemma InsertAll(ns: seq<Node>, p: nat, n: Node)
    requires Ordered(ns) && NodeOk(n) && p <= |ns|
    requires forall i :: 0 <= i < |ns| ==> NodeOk(ns[i]) && !Hits(ns[i], n.start, n.last)
    requires forall i :: 0 <= i < p ==> ns[i].start <= n.last
    requires p < |ns| ==> ns[p].start > n.last
    ensures var ms := ns[..p] + [n] + ns[p..];
            && Ordered(ms) && multiset(Flat(ms)) == multiset(Flat(ns)) + multiset(n.bos)
            && (forall i :: 0 <= i < |ms| ==> NodeOk(ms[i]))
            && (forall x :: Covered(ms, x) <==> Covered(ns, x) || In(n, x))
  {
    InsertPlace(ns, p, n);
    InsertOrdered(ns, p, n);
    var ms := ns[..p] + [n] + ns[p..];
    InsertShape(ns, p, n, ms);
    InsertFlat(ns, p, n, ms);
    forall x
      ensures Covered(ms, x) <==> Covered(ns, x) || In(n, x)
    {
      RemoveCovers(ms, p, x);
    }
  }

  lemma InsertShape(ns: seq<Node>, p: nat, n: Node, ms: seq<Node>)
    requires p <= |ns| && ms == ns[..p] + [n] + ns[p..]
    requires NodeOk(n) && forall i :: 0 <= i < |ns| ==> NodeOk(ns[i])
    ensures |ms| == |ns| + 1 && ms[p] == n && ms[..p] + ms[p + 1..] == ns
    ensures forall i :: 0 <= i < |ms| ==> NodeOk(ms[i])
  {
    forall i | 0 <= i < |ms|
      ensures NodeOk(ms[i])
    {
      assert ms[i] == if i < p then ns[i] else if i == p then n else ns[i - 1];
    }
  }

  // ---- What an invalidation must visit ----

  /** The buffers of bs that the range touches, in order. */
  function Touched(bs: seq<Buffer>, q: Range): seq<Buffer> {
    if bs == [] then []
    else (if Affects(bs[0], q) then [bs[0]] else []) + Touched(bs[1..], q)
  }

  lemma {:induction false} TouchedConcat(bs: seq<Buffer>, cs: seq<Buffer>, q: Range)
    ensures Touched(bs + cs, q) == Touched(bs, q) + Touched(cs, q)
  {
    if bs == [] {
      assert bs + cs == cs;
    } else {
      assert (bs + cs)[1..] == bs[1..] + cs;
      TouchedConcat(bs[1..], cs, q);
    }
  }

  /** Exactly the affected buffers, each as often as it is listed. */
  lemma {:induction false} TouchedCount(bs: seq<Buffer>, q: Range, b: Buffer)
    ensures multiset(Touched(bs, q))[b] == if Affects(b, q) then multiset(bs)[b] else 0
  {
    if bs != [] {
      assert bs == [bs[0]] + bs[1..];
      TouchedCount(bs[1..], q, b);
    }
  }

  /** A valid tree's visit meets every affected registered buffer exactly once, and no other. */
  lemma VisitsOnce(ns: seq<Node>, q: Range, b: Buffer)
    requires TreeOk(ns)
    ensures multiset(Touched(Flat(ns), q))[b] == if b in Flat(ns) && Affects(b, q) then 1 else 0
  {
    TouchedCount(Flat(ns), q, b);
    CountAtMost(Flat(ns), b);
    assert b in Flat(ns) <==> b in multiset(Flat(ns));
  }

  /** A node the range misses has no affected buffer. */
  lemma {:induction false} MissedTouchesNone(bs: seq<Buffer>, n: Node, q: Range)
    requires (forall b :: b in bs ==> Within(b, n.start, n.last)) && !Hits(n, q.start, q.last)
    ensures Touched(bs, q) == []
  {
    if bs != [] {
      assert bs[0] in bs;
      MissedTouchesNone(bs[1..], n, q);
    }
  }

  lemma {:induction false} AllMissedTouchNone(ns: seq<Node>, q: Range)
    requires forall i :: 0 <= i < |ns| ==> NodeOk(ns[i]) && !Hits(ns[i], q.start, q.last)
    ensures Touched(Flat(ns), q) == []
  {
    if ns != [] {
      MissedTouchesNone(ns[0].bos, ns[0], q);
      AllMissedTouchNone(ns[1..], q);
      TouchedConcat(ns[0].bos, Flat(ns[1..]), q);
    }
  }

  /** The whole walk: after the nodes before i, exactly their affected buffers were visited. */
  lemma VisitOne(ns: seq<Node>, k: nat, i: nat, q: Range)
    requires k <= i <= |ns| && forall j :: 0 <= j < |ns| ==> NodeOk(ns[j])
    requires forall j :: k <= j < i ==> !Hits(ns[j], q.start, q.last)
    ensures Touched(Flat(ns[..i]), q) == Touched(Flat(ns[..k]), q)
    ensures i < |ns| ==> Touched(Flat(ns[..i + 1]), q) == Touched(Flat(ns[..i]), q) + Touched(ns[i].bos, q)
  {
    assert ns[..i] == ns[..k] + ns[k..i];
    FlatConcat(ns[..k], ns[k..i]);
    AllMissedTouchNone(ns[k..i], q);
    TouchedConcat(Flat(ns[..k]), Flat(ns[k..i]), q);
    if i < |ns| {
      assert ns[..i + 1] == ns[..i] + [ns[i]];
      FlatConcat(ns[..i], [ns[i]]);
      assert Flat([ns[i]]) == ns[i].bos + Flat([]) == ns[i].bos;
      TouchedConcat(Flat(ns[..i]), ns[i].bos, q);
    }
  }

  // ---- Removing a buffer ----

  function Dropped(ns: seq<Node>, i: nat, j: nat): seq<Node>
    requires i < |ns| && j < |ns[i].bos|
  {
    var bos := ns[i].bos[..j] + ns[i].bos[j + 1..];
    if bos == [] then ns[..i] + ns[i + 1..] else ns[i := ns[i].(bos := bos)]
  }

  lemma DroppedFlat(ns: seq<Node>, i: nat, j: nat)
    requires i < |ns| && j < |ns[i].bos|
    ensures multiset(Flat(Dropped(ns, i, j))) + multiset{ns[i].bos[j]} == multiset(Flat(ns))
  {
    var n := ns[i];
    var bos := n.bos[..j] + n.bos[j + 1..];
    assert n.bos == n.bos[..j] + [n.bos[j]] + n.bos[j + 1..];
    FlatAt(ns, i);
    if bos != [] {
      var ms := Dropped(ns, i, j);
      FlatAt(ms, i);
      assert ms[..i] == ns[..i] && ms[i + 1..] == ns[i + 1..];
    }
  }

  lemma DroppedNodes(ns: seq<Node>, i: nat, j: nat)
    requires Ordered(ns) && i < |ns| && j < |ns[i].bos| && forall k :: 0 <= k < |ns| ==> NodeOk(ns[k])
    ensures var ms := Dropped(ns, i, j); Ordered(ms) && forall k :: 0 <= k < |ms| ==> NodeOk(ms[k])
  {
    var ms := Dropped(ns, i, j);
    var bos := ns[i].bos[..j] + ns[i].bos[j + 1..];
    if bos == [] {
      RemoveOrdered(ns, i);
    } else {
      assert forall b :: b in bos ==> b in ns[i].bos;
      assert NodeOk(ns[i]);
    }
  }

  lemma DroppedOk(ns: seq<Node>, i: nat, j: nat)
    requires TreeOk(ns) && i < |ns| && j < |ns[i].bos|
    ensures TreeOk(Dropped(ns, i, j)) && ns[i].bos[j] !in Flat(Dropped(ns, i, j))
  {
    var ms, b := Dropped(ns, i, j), ns[i].bos[j];
    DroppedFlat(ns, i, j);
    DistinctPart(Flat(ns), Flat(ms));
    CountAtMost(Flat(ns), b);
    assert b !in multiset(Flat(ms));
    DroppedNodes(ns, i, j);
  }

  /** A node goes only with its last buffer. */
  lemma DroppedCovers(ns: seq<Node>, i: nat, j: nat, x: int)
    requires TreeOk(ns) && i < |ns| && j < |ns[i].bos|
    ensures Covered(Dropped(ns, i, j), x) <==> CoveredBeside(ns, ns[i].bos[j], x)
  {
    var b := ns[i].bos[j];
    forall k | 0 <= k < |ns| && b in ns[k].bos
      ensures k == i
    {
      FlatMember(ns, b);
      OneNode(ns, b);
    }
    var bos := ns[i].bos[..j] + ns[i].bos[j + 1..];
    if bos == [] {
      LastCovers(ns, i, b, x);
    } else {
      assert |ns[i].bos| > 1;
      WideCovers(ns, i, bos, b, x);
    }
  }

  lemma LastCovers(ns: seq<Node>, i: nat, b: Buffer, x: int)
    requires i < |ns| && ns[i].bos == [b]
    requires forall k :: 0 <= k < |ns| && b in ns[k].bos ==> k == i
    ensures Covered(ns[..i] + ns[i + 1..], x) <==> CoveredBeside(ns, b, x)
  {
    var ms := ns[..i] + ns[i + 1..];
    if Covered(ms, x) {
      var k :| 0 <= k < |ms| && In(ms[k], x);
      var k' := if k < i then k else k + 1;
      assert ns[k'] == ms[k] && b !in ns[k'].bos;
    }
    if CoveredBeside(ns, b, x) {
      var k :| 0 <= k < |ns| && In(ns[k], x) && ns[k].bos != [b];
      assert ms[if k < i then k else k - 1] == ns[k];
    }
  }

  lemma WideCovers(ns: seq<Node>, i: nat, bos: seq<Buffer>, b: Buffer, x: int)
    requires i < |ns| && |ns[i].bos| > 1
    requires forall k :: 0 <= k < |ns| && b in ns[k].bos ==> k == i
    ensures Covered(ns[i := ns[i].(bos := bos)], x) <==> CoveredBeside(ns, b, x)
  {
    var ms := ns[i := ns[i].(bos := bos)];
    if Covered(ms, x) {
      var k :| 0 <= k < |ms| && In(ms[k], x);
      assert In(ns[k], x) && ns[k].bos != [b];
    }
    if CoveredBeside(ns, b, x) {
      var k :| 0 <= k < |ns| && In(ns[k], x) && ns[k].bos != [b];
      assert In(ms[k], x);
    }
  }

  lemma DropAll(ns: seq<Node>, i: nat, j: nat)
    requires TreeOk(ns) && i < |ns| && j < |ns[i].bos|
    ensures var ms, b := Dropped(ns, i, j), ns[i].bos[j];
            && TreeOk(ms) && b !in Flat(ms) && multiset(Flat(ms)) == multiset(Flat(ns)) - multiset{b}
            && forall x :: Covered(ms, x) <==> CoveredBeside(ns, b, x)
  {
    DroppedOk(ns, i, j);
    DroppedFlat(ns, i, j);
    forall x
      ensures Covered(Dropped(ns, i, j), x) <==> CoveredBeside(ns, ns[i].bos[j], x)
    {
      DroppedCovers(ns, i, j, x);
    }
  }

  /** Without b registered, removing it would change nothing. */
  lemma DropNone(ns: seq<Node>, b: Buffer)
    requires TreeOk(ns) && forall i :: 0 <= i < |ns| ==> b !in ns[i].bos
    ensures b !in Flat(ns) && multiset(Flat(ns)) == multiset(Flat(ns)) - multiset{b}
    ensures forall x :: Covered(ns, x) <==> CoveredBeside(ns, b, x)
  {
    FlatMember(ns, b);
    assert forall i :: 0 <= i < |ns| ==> ns[i].bos != [b];
  }

  /** Covered by a node that has more than b. */
  ghost predicate CoveredBeside(ns: seq<Node>, b: Buffer, x: int) {
    exists i :: 0 <= i < |ns| && In(ns[i], x) && ns[i].bos != [b]
  }

  // ---- Merging ----

  /** The nodes ms0 and the new range have become the nodes ms, the range and its buffers:
      nothing is lost and exactly the same addresses are covered. */
  ghost predicate Merging(ms0: seq<Node>, addr0: int, end0: int, ms: seq<Node>, addr: int, end: int, bos: seq<Buffer>) {
    && Ordered(ms) && addr <= addr0 && end0 <= end
    && (forall i :: 0 <= i < |ms| ==> NodeOk(ms[i]))
    && (forall b :: b in bos ==> Within(b, addr, end))
    && multiset(Flat(ms)) + multiset(bos) == multiset(Flat(ms0))
    && (forall x :: Reaches(ms, addr, end, x) <==> Reaches(ms0, addr0, end0, x))
  }

  ghost predicate Reaches(ms: seq<Node>, addr: int, end: int, x: int) {
    Covered(ms, x) || addr <= x <= end
  }

  /** One turn of the merge loop keeps it. */
  lemma MergeOne(ms0: seq<Node>, addr0: int, end0: int, ms: seq<Node>, addr: int, end: int, bos: seq<Buffer>, i: nat)
    requires Merging(ms0, addr0, end0, ms, addr, end, bos) && addr0 <= end0
    requires i < |ms| && Hits(ms[i], addr, end)
    ensures var n := ms[i];
            Merging(ms0, addr0, end0, ms[..i] + ms[i + 1..], if n.start < addr then n.start else addr,
                    if n.last > end then n.last else end, n.bos + bos)
  {
    var n, ms' := ms[i], ms[..i] + ms[i + 1..];
    RemoveOrdered(ms, i);
    FlatRemove(ms, i);
    assert NodeOk(n);
    forall k | 0 <= k < |ms'|
      ensures NodeOk(ms'[k])
    {
      assert ms'[k] == ms[if k < i then k else k + 1];
    }
    forall x
      ensures Reaches(ms', if n.start < addr then n.start else addr, if n.last > end then n.last else end, x) <==>
              Reaches(ms0, addr0, end0, x)
    {
      MergeCovers(ms, addr, end, i, x);
    }
    MergeBuffers(n, addr, end, bos);
  }

  lemma MergeBuffers(n: Node, addr: int, end: int, bos: seq<Buffer>)
    requires NodeOk(n) && forall b :: b in bos ==> Within(b, addr, end)
    ensures multiset(n.bos + bos) == multiset(n.bos) + multiset(bos)
    ensures forall b :: b in n.bos + bos ==>
              Within(b, if n.start < addr then n.start else addr, if n.last > end then n.last else end)
  {
  }

  lemma MergeCovers(ms: seq<Node>, addr: int, end: int, i: nat, x: int)
    requires i < |ms| && Hits(ms[i], addr, end) && ms[i].start <= ms[i].last && addr <= end
    ensures var n := ms[i];
            Reaches(ms[..i] + ms[i + 1..], if n.start < addr then n.start else addr, if n.last > end then n.last else end, x)
            <==> Reaches(ms, addr, end, x)
  {
    RemoveCovers(ms, i, x);
  }

  // ---- The notifier ----

  class Notifier {
    var nodes: seq<Node>

    ghost predicate Valid()
      reads this
    {
      TreeOk(nodes)
    }

    ghost function Registered(): seq<Buffer>
      reads this
    {
      Flat(nodes)
    }

    constructor ()
      ensures Valid() && Registered() == []
    {
      nodes := [];
    }

    /** interval_tree_iter_first from node k on: the first node that the range hits. */
    method IterFrom(k: nat, start: int, last: int) returns (i: nat)
      requires k <= |nodes|
      ensures k <= i <= |nodes|
      ensures forall j :: k <= j < i ==> !Hits(nodes[j], start, last)
      ensures i < |nodes| ==> Hits(nodes[i], start, last)
    {
      i := k;
      while i < |nodes| && !Hits(nodes[i], start, last)
        invariant k <= i <= |nodes|
        invariant forall j :: k <= j < i ==> !Hits(nodes[j], start, last)
      {
        i := i + 1;
      }
    }

    /** interval_tree_insert: before the first node that starts beyond it. */
    method Insert(n: Node)
      requires Ordered(nodes) && NodeOk(n)
      requires forall i :: 0 <= i < |nodes| ==> NodeOk(nodes[i]) && !Hits(nodes[i], n.start, n.last)
      requires forall b :: b in n.bos ==> Within(b, n.start, n.last)
      modifies this
      ensures Ordered(nodes) && multiset(Flat(nodes)) == multiset(old(Flat(nodes))) + multiset(n.bos)
      ensures forall i :: 0 <= i < |nodes| ==> NodeOk(nodes[i])
      ensures forall x :: Covered(nodes, x) <==> old(Covered(nodes, x)) || In(n, x)
    {
      var p := 0;
      while p < |nodes| && nodes[p].start <= n.last
        invariant 0 <= p <= |nodes|
        invariant forall i :: 0 <= i < p ==> nodes[i].start <= n.last
      {
        p := p + 1;
      }
      InsertAll(nodes, p, n);
      nodes := nodes[..p] + [n] + nodes[p..];
    }

    /** The merge loop of gsgpu_mn_register: takes every node that the growing range hits. */
    method Merge(addr0: int, end0: int) returns (addr: int, end: int, bos: seq<Buffer>)
      requires Valid() && addr0 <= end0
      modifies this
      ensures Merging(old(nodes), addr0, end0, nodes, addr, end, bos)
      ensures forall i :: 0 <= i < |nodes| ==> !Hits(nodes[i], addr, end)
    {
      addr, end, bos := addr0, end0, [];
      while true
        invariant Merging(old(nodes), addr0, end0, nodes, addr, end, bos)
        decreases |nodes|
      {
        var i := IterFrom(0, addr, end);
        if i == |nodes| {
          return;
        }
        var n := nodes[i];
        MergeOne(old(nodes), addr0, end0, nodes, addr, end, bos, i);
        nodes := nodes[..i] + nodes[i + 1..];
        addr := if n.start < addr then n.start else addr;
        end := if n.last > end then n.last else end;
        bos := n.bos + bos;
      }
    }

    /** gsgpu_mn_register. The covered addresses grow by exactly the buffer's range. */
    method Register(b: Buffer)
      requires Valid() && b.size >= 1 && b !in Registered()
      modifies this
      ensures Valid() && multiset(Registered()) == multiset(old(Registered())) + multiset{b}
      ensures forall x :: Covered(nodes, x) <==> old(Covered(nodes, x)) || b.addr <= x < b.addr + b.size
    {
      ghost var bs := Flat(nodes) + [b];
      assert Distinct(bs);
      ghost var before := nodes;
      var addr, end, bos := Merge(b.addr, b.addr + b.size - 1);
      ghost var mid := nodes;
      Insert(Node(addr, end, [b] + bos));
      forall x
        ensures Covered(nodes, x) <==> Covered(before, x) || b.addr <= x < b.addr + b.size
      {
        assert Reaches(mid, addr, end, x) <==> Reaches(before, b.addr, b.addr + b.size - 1, x);
      }
      DistinctPart(bs, Flat(nodes));
    }

    /** gsgpu_mn_unregister. A node goes only with its last buffer; otherwise the
        interval keeps its width. A buffer that is not registered changes nothing. */
    method Unregister(b: Buffer)
      requires Valid()
      modifies this
      ensures Valid() && multiset(Registered()) == multiset(old(Registered())) - multiset{b}
      ensures b !in Registered()
      ensures forall x :: Covered(nodes, x) <==> old(CoveredBeside(nodes, b, x))
    {
      if !exists i :: 0 <= i < |nodes| && b in nodes[i].bos {
        DropNone(nodes, b);
        return;
      }
      var i :| 0 <= i < |nodes| && b in nodes[i].bos;
      var j :| 0 <= j < |nodes[i].bos| && nodes[i].bos[j] == b;
      DropAll(nodes, i, j);
      nodes := Dropped(nodes, i, j);
    }

    /** gsgpu_mn_invalidate_range_start_gfx after its read lock, on the inclusive
        range: every affected buffer is visited, in order and once. Without leave to
        block it gives up, visiting nothing, exactly when the range hits a node. */
    method Invalidate(q: Range, blockable: bool) returns (again: bool, visited: seq<Buffer>)
      requires Valid()
      ensures again <==> !blockable && exists i :: 0 <= i < |nodes| && Hits(nodes[i], q.start, q.last)
      ensures again ==> visited == []
      ensures !again ==> visited == Touched(Registered(), q)
    {
      visited := [];
      var i := IterFrom(0, q.start, q.last);
      VisitOne(nodes, 0, i, q);
      while i < |nodes|
        invariant 0 <= i <= |nodes| && visited == Touched(Flat(nodes[..i]), q)
        invariant i < |nodes| ==> Hits(nodes[i], q.start, q.last)
        invariant blockable || forall j :: 0 <= j < i ==> !Hits(nodes[j], q.start, q.last)
      {
        if !blockable {
          return true, [];
        }
        VisitOne(nodes, i, i, q);
        var more := InvalidateNode(nodes[i], q);
        visited := visited + more;
        var next := IterFrom(i + 1, q.start, q.last);
        VisitOne(nodes, i + 1, next, q);
        i := next;
      }
      assert nodes[..i] == nodes;
      again := false;
    }

    /** gsgpu_mn_invalidate_node. */
    method InvalidateNode(n: Node, q: Range) returns (visited: seq<Buffer>)
      ensures visited == Touched(n.bos, q)
    {
      visited := [];
      for i := 0 to |n.bos|
        invariant visited == Touched(n.bos[..i], q)
      {
        assert n.bos[..i + 1] == n.bos[..i] + [n.bos[i]];
        TouchedConcat(n.bos[..i], [n.bos[i]], q);
        assert Touched([n.bos[i]], q) == (if Affects(n.bos[i], q) then [n.bos[i]] else []) + Touched([], q);
        if !Affects(n.bos[i], q) {
          continue;
        }
        visited := visited + [n.bos[i]];
      }
      assert n.bos[..|n.bos|] == n.bos;
    }
  }
}
