/** Buffer lists of a submission: created from user handles by filling an array from
    both ends, and handed to validation by a stable bucket sort. */
module BoList {

  const MaxPriority: nat := 32
  const NumBuckets: nat := 33

  /** user: backed by user memory. parent: a page table of some other buffer. */
  datatype Bo = Bo(id: nat, user: bool, parent: bool)

  datatype Entry = Entry(bo: Bo, priority: nat) | Empty

  /** What a handle leads to: a buffer, the caller's own or of another process, or nothing. */
  datatype Info = Found(bo: Bo, priority: nat) | Foreign | Missing

  datatype Outcome = Ok | Enoent | Eperm

  function EntryOf(x: Info): Entry
    requires x.Found?
  {
    Entry(x.bo, if x.priority < MaxPriority then x.priority else MaxPriority)
  }

  predicate AllFound(xs: seq<Info>) {
    forall i :: 0 <= i < |xs| ==> xs[i].Found?
  }

  /** The entries without user memory, in order. */
  function Plain(xs: seq<Info>): (r: seq<Entry>)
    requires AllFound(xs)
    ensures |r| <= |xs|
  {
    if xs == [] then []
    else
      var n := |xs| - 1;
      Plain(xs[..n]) + if xs[n].bo.user then [] else [EntryOf(xs[n])]
  }

  /** The entries with user memory, the last first. */
  function UsersBack(xs: seq<Info>): (r: seq<Entry>)
    requires AllFound(xs)
    ensures |r| + |Plain(xs)| == |xs|
  {
    if xs == [] then []
    else
      var n := |xs| - 1;
      (if xs[n].bo.user then [EntryOf(xs[n])] else []) + UsersBack(xs[..n])
  }

  function Entries(xs: seq<Info>): (r: seq<Entry>)
    requires AllFound(xs)
    ensures |r| == |xs|
  {
    seq(|xs|, i requires 0 <= i < |xs| => EntryOf(xs[i]))
  }

  predicate IsUser(e: Entry) {
    e.Entry? && e.bo.user
  }

  lemma LastEntry(xs: seq<Info>)
    requires xs != [] && AllFound(xs)
    ensures var n := |xs| - 1; var ys, e := xs[..n], EntryOf(xs[n]);
            && Plain(xs) == (if xs[n].bo.user then Plain(ys) else Plain(ys) + [e])
            && UsersBack(xs) == (if xs[n].bo.user then [e] + UsersBack(ys) else UsersBack(ys))
            && Entries(xs) == Entries(ys) + [e]
  {
  }

  lemma {:induction false} EndsMultiset(xs: seq<Info>)
    requires AllFound(xs)
    ensures multiset(Plain(xs)) + multiset(UsersBack(xs)) == multiset(Entries(xs))
  {
    if xs != [] {
      var n := |xs| - 1;
      var ys, e := xs[..n], EntryOf(xs[n]);
      EndsMultiset(ys);
      OneMore(Plain(ys), UsersBack(ys), Entries(ys), e);
      LastEntry(xs);
    }
  }

  lemma OneMore(p: seq<Entry>, u: seq<Entry>, all: seq<Entry>, e: Entry)
    requires multiset(p) + multiset(u) == multiset(all)
    ensures multiset(p + [e]) + multiset(u) == multiset(all + [e])
    ensures multiset(p) + multiset([e] + u) == multiset(all + [e])
  {
  }

  lemma {:induction false} PlainAre(xs: seq<Info>, k: nat)
    requires AllFound(xs) && k < |Plain(xs)|
    ensures !IsUser(Plain(xs)[k])
  {
    var n := |xs| - 1;
    if k < |Plain(xs[..n])| {
      PlainAre(xs[..n], k);
    }
  }

  lemma {:induction false} UsersAre(xs: seq<Info>, k: nat)
    requires AllFound(xs) && k < |UsersBack(xs)|
    ensures IsUser(UsersBack(xs)[k])
  {
    var n := |xs| - 1;
    if xs[n].bo.user {
      if k > 0 {
        UsersAre(xs[..n], k - 1);
      }
    } else {
      UsersAre(xs[..n], k);
    }
  }

  /** The array that a successful creation leaves holds every entry once, with the user
      entries exactly at and after the first user index. */
  lemma EndsAreAll(xs: seq<Info>, list: seq<Entry>)
    requires AllFound(xs) && list == Plain(xs) + UsersBack(xs)
    ensures multiset(list) == multiset(Entries(xs))
    ensures forall i :: 0 <= i < |list| ==> (IsUser(list[i]) <==> i >= |Plain(xs)|)
  {
    EndsMultiset(xs);
    forall i | 0 <= i < |list|
      ensures IsUser(list[i]) <==> i >= |Plain(xs)|
    {
      if i < |Plain(xs)| {
        PlainAre(xs, i);
      } else {
        UsersAre(xs, i - |Plain(xs)|);
      }
    }
  }

  /** References to the buffers of some entries. */
  function Refs(es: seq<Entry>): multiset<nat> {
    if es == [] then multiset{}
    else Refs(es[..|es| - 1]) + (if es[|es| - 1].Entry? then multiset{es[|es| - 1].bo.id} else multiset{})
  }

  lemma {:induction false} RefsConcat(es: seq<Entry>, fs: seq<Entry>)
    ensures Refs(es + fs) == Refs(es) + Refs(fs)
  {
    if fs == [] {
      assert es + fs == es;
    } else {
      var n := |fs| - 1;
      assert (es + fs)[..|es + fs| - 1] == es + fs[..n];
      RefsConcat(es, fs[..n]);
    }
  }

  lemma RefsStep(es: seq<Entry>, j: nat)
    requires j < |es|
    ensures Refs(es[..j + 1]) == Refs(es[..j]) + (if es[j].Entry? then multiset{es[j].bo.id} else multiset{})
  {
    assert es[..j + 1][..j] == es[..j];
  }

  lemma {:induction false} RefsNone(es: seq<Entry>)
    ensures Refs(es) == multiset{} <==> forall i :: 0 <= i < |es| ==> es[i] == Empty
  {
    if es != [] {
      var n := |es| - 1;
      RefsNone(es[..n]);
      if es[n].Entry? {
        assert es[n].bo.id in Refs(es);
      }
    }
  }

  function Empties(n: nat): (r: seq<Entry>)
    ensures |r| == n && forall i :: 0 <= i < n ==> r[i] == Empty
  {
    seq(n, _ => Empty)
  }

  /** The array after the first i handles. */
  function Filled(xs: seq<Info>, i: nat): (r: seq<Entry>)
    requires i <= |xs| && AllFound(xs[..i])
    ensures |r| == |xs|
  {
    Plain(xs[..i]) + Empties(|xs| - i) + UsersBack(xs[..i])
  }

  /** gsgpu_bo_list_create. refs are the references held at the end. A failure stops at
      handle bad; it then holds none exactly when no user entry was stored before. */
  method Create(xs: seq<Info>) returns (r: Outcome, list: array<Entry>, first: nat, refs: multiset<nat>, bad: nat)
    ensures list.Length == |xs| && bad <= |xs| && AllFound(xs[..bad])
    ensures r.Ok? <==> bad == |xs|
    ensures r.Enoent? ==> xs[bad].Missing?
    ensures r.Eperm? ==> xs[bad].Foreign?
    ensures r.Ok? ==> first == |Plain(xs)| && list[..] == Plain(xs) + UsersBack(xs) && refs == Refs(list[..])
    ensures !r.Ok? ==> (refs == multiset{} <==> UsersBack(xs[..bad]) == [])
  {
    list := new Entry[|xs|](_ => Empty);
    bad, first, refs := Fill(xs, list);
    if bad == |xs| {
      assert xs[..bad] == xs;
      assert Filled(xs, bad) == Plain(xs) + UsersBack(xs);
      r := Ok;
      return;
    }
    r := if xs[bad].Missing? then Enoent else Eperm;
    refs := DropFirst(list, bad, refs);
    assert list[bad..] == Filled(xs, bad)[bad..];
    LeakIff(xs, bad);
  }

  /** The filling loop, up to the first handle that does not lead to a buffer of the caller. */
  method Fill(xs: seq<Info>, list: array<Entry>) returns (bad: nat, first: nat, refs: multiset<nat>)
    requires list[..] == Empties(|xs|)
    modifies list
    ensures bad <= |xs| && AllFound(xs[..bad]) && (bad < |xs| ==> !xs[bad].Found?)
    ensures first == |xs| - |UsersBack(xs[..bad])|
    ensures list[..] == Filled(xs, bad) && refs == Refs(list[..])
  {
    var last := 0;
    first, bad, refs := |xs|, 0, multiset{};
    NothingFilled(xs);
    while bad < |xs| && xs[bad].Found?
      invariant Filling(xs, bad, list[..], last, first, refs)
    {
      last, first := Store(xs, bad, list, last, first, refs);
      refs := refs + multiset{xs[bad].bo.id};
      bad := bad + 1;
    }
  }

  /** The state of the filling loop after i handles. */
  ghost predicate Filling(xs: seq<Info>, i: nat, es: seq<Entry>, last: nat, first: nat, refs: multiset<nat>) {
    && i <= |xs| && AllFound(xs[..i])
    && last == |Plain(xs[..i])| && first == |xs| - |UsersBack(xs[..i])|
    && es == Filled(xs, i) && refs == Refs(es)
  }

  lemma NothingFilled(xs: seq<Info>)
    ensures Filling(xs, 0, Empties(|xs|), 0, |xs|, multiset{})
  {
    RefsNone(Empties(|xs|));
    assert Filled(xs, 0) == Empties(|xs|);
  }

  /** One turn of the filling loop. */
  method Store(xs: seq<Info>, i: nat, list: array<Entry>, last: nat, first: nat, ghost refs: multiset<nat>)
    returns (last': nat, first': nat)
    requires Filling(xs, i, list[..], last, first, refs) && i < |xs| && xs[i].Found?
    modifies list
    ensures Filling(xs, i + 1, list[..], last', first', refs + multiset{xs[i].bo.id})
  {
    FilledMore(xs, i);
    ghost var es := list[..];
    last', first' := last, first;
    var at: nat;
    if xs[i].bo.user {
      first' := first - 1;
      at := first';
    } else {
      at := last;
      last' := last + 1;
    }
    list[at] := EntryOf(xs[i]);
    assert list[..] == es[at := EntryOf(xs[i])];
    RefsStore(es, at, EntryOf(xs[i]));
  }

  /** One more handle fills the place that its kind asks for. */
  lemma FilledMore(xs: seq<Info>, i: nat)
    requires i < |xs| && AllFound(xs[..i]) && xs[i].Found?
    ensures AllFound(xs[..i + 1])
    ensures var at := if xs[i].bo.user then |xs| - |UsersBack(xs[..i])| - 1 else |Plain(xs[..i])|;
            && 0 <= at < |xs| && Filled(xs, i)[at] == Empty && Filled(xs, i + 1) == Filled(xs, i)[at := EntryOf(xs[i])]
    ensures |Plain(xs[..i + 1])| == |Plain(xs[..i])| + if xs[i].bo.user then 0 else 1
  {
    assert xs[..i + 1][..i] == xs[..i];
  }

  lemma RefsStore(es: seq<Entry>, at: nat, e: Entry)
    requires at < |es| && es[at] == Empty && e.Entry?
    ensures Refs(es[at := e]) == Refs(es) + multiset{e.bo.id}
  {
    var a, b := es[..at], es[at + 1..];
    assert es == a + ([Empty] + b) && es[at := e] == a + ([e] + b);
    RefsConcat([Empty], b);
    RefsConcat([e], b);
    RefsConcat(a, [Empty] + b);
    RefsConcat(a, [e] + b);
  }

  /** The error path of the source: drops the references of the entries below i, and only those. */
  method DropFirst(list: array<Entry>, i: nat, refs0: multiset<nat>) returns (refs: multiset<nat>)
    requires i <= list.Length && refs0 == Refs(list[..])
    ensures refs == Refs(list[i..])
  {
    var j := i;
    refs := refs0;
    ghost var es := list[..];
    assert es == es[..i] + es[i..];
    RefsConcat(es[..i], es[i..]);
    while j > 0
      invariant 0 <= j <= i && refs == Refs(es[..j]) + Refs(es[i..])
    {
      j := j - 1;
      RefsStep(es, j);
      if list[j].Entry? {
        refs := refs - multiset{list[j].bo.id};
      }
    }
    assert es[..0] == [];
    assert list[i..] == es[i..];
  }

  /** After a failure at handle i, the array from i on is empty exactly when no user entry was stored. */
  lemma LeakIff(xs: seq<Info>, i: nat)
    requires i < |xs| && AllFound(xs[..i])
    ensures Refs(Filled(xs, i)[i..]) == multiset{} <==> UsersBack(xs[..i]) == []
  {
    var p, u := Plain(xs[..i]), UsersBack(xs[..i]);
    var tail := Filled(xs, i)[i..];
    RefsNone(tail);
    if u != [] {
      assert tail[|tail| - 1] == u[|u| - 1];
      UsersAre(xs[..i], |u| - 1);
    }
  }

  /** The leak does happen: a buffer with user memory, followed by a handle that leads nowhere. */
  lemma UserEntryLeaks(b: Bo, priority: nat)
    requires b.user
    ensures var xs := [Found(b, priority), Missing]; AllFound(xs[..1]) && Refs(Filled(xs, 1)[1..]) != multiset{}
  {
    var xs := [Found(b, priority), Missing];
    assert xs[..1][..0] == [];
    assert UsersBack(xs[..1]) == [EntryOf(xs[0])] + UsersBack([]);
    LeakIff(xs, 1);
  }

  // ---- The bucket sort ----

  predicate Takes(e: Entry, p: nat) {
    e.Entry? && !e.bo.parent && e.priority == p
  }

  /** The parentless entries of one priority, in order. */
  function Bucket(es: seq<Entry>, p: nat): seq<Entry> {
    if es == [] then []
    else Bucket(es[..|es| - 1], p) + if Takes(es[|es| - 1], p) then [es[|es| - 1]] else []
  }

  /** The buckets from p down to 0. */
  function Descending(es: seq<Entry>, p: nat): seq<Entry> {
    if p == 0 then Bucket(es, 0) else Bucket(es, p) + Descending(es, p - 1)
  }

  function Sorted(es: seq<Entry>): seq<Entry> {
    Descending(es, MaxPriority)
  }

  /** Every priority has a bucket: what gsgpu_bo_list_create guarantees by its minimum. */
  predicate Bucketed(es: seq<Entry>) {
    forall i :: 0 <= i < |es| && es[i].Entry? ==> es[i].priority <= MaxPriority
  }

  lemma {:induction false} BucketConcat(es: seq<Entry>, fs: seq<Entry>, p: nat)
    ensures Bucket(es + fs, p) == Bucket(es, p) + Bucket(fs, p)
  {
    if fs == [] {
      assert es + fs == es;
    } else {
      var n := |fs| - 1;
      assert (es + fs)[..|es + fs| - 1] == es + fs[..n];
      BucketConcat(es, fs[..n], p);
    }
  }

  lemma {:induction false} BucketOfBucket(es: seq<Entry>, p: nat, q: nat)
    ensures Bucket(Bucket(es, p), q) == if p == q then Bucket(es, p) else []
  {
    if es != [] {
      var n := |es| - 1;
      BucketOfBucket(es[..n], p, q);
      assert !Takes(es[n], p) ==> Bucket(es, p) == Bucket(es[..n], p);
      if Takes(es[n], p) {
        BucketConcat(Bucket(es[..n], p), [es[n]], q);
        assert [es[n]][..0] == [];
        assert Bucket([es[n]], q) == Bucket([], q) + if Takes(es[n], q) then [es[n]] else [];
      }
    }
  }

  lemma {:induction false} BucketMembers(es: seq<Entry>, p: nat, i: nat)
    requires i < |Bucket(es, p)|
    ensures Takes(Bucket(es, p)[i], p)
  {
    var n := |es| - 1;
    if i < |Bucket(es[..n], p)| {
      BucketMembers(es[..n], p, i);
    }
  }

  /** Stable: the entries of each priority keep their order. */
  lemma {:induction false} DescendingStable(es: seq<Entry>, p: nat, q: nat)
    ensures Bucket(Descending(es, p), q) == if q <= p then Bucket(es, q) else []
    decreases p
  {
    BucketOfBucket(es, p, q);
    if p > 0 {
      DescendingStable(es, p - 1, q);
      BucketConcat(Bucket(es, p), Descending(es, p - 1), q);
    }
  }

  predicate UpTo(r: seq<Entry>, p: int) {
    forall i :: 0 <= i < |r| ==> r[i].Entry? && !r[i].bo.parent && r[i].priority <= p
  }

  predicate Falling(r: seq<Entry>) {
    forall i, j :: 0 <= i < j < |r| ==> r[i].Entry? && r[j].Entry? && r[i].priority >= r[j].priority
  }

  lemma FallingConcat(b: seq<Entry>, d: seq<Entry>, p: nat)
    requires (forall i :: 0 <= i < |b| ==> Takes(b[i], p)) && UpTo(d, p - 1) && Falling(d)
    ensures UpTo(b + d, p) && Falling(b + d)
  {
    var r := b + d;
    forall i | 0 <= i < |r|
      ensures r[i].Entry? && !r[i].bo.parent && r[i].priority <= p && (i < |b| ==> r[i].priority == p)
    {
      if i < |b| {
        assert r[i] == b[i] && Takes(b[i], p);
      } else {
        assert r[i] == d[i - |b|];
      }
    }
    forall i, j | 0 <= i < j < |r|
      ensures r[i].priority >= r[j].priority
    {
      if i >= |b| {
        assert r[i] == d[i - |b|] && r[j] == d[j - |b|];
      }
    }
  }

  /** Descending priorities, and only parentless entries. */
  lemma {:induction false} DescendingOrdered(es: seq<Entry>, p: nat)
    ensures UpTo(Descending(es, p), p) && Falling(Descending(es, p))
    decreases p
  {
    var b := Bucket(es, p);
    forall i | 0 <= i < |b|
      ensures Takes(b[i], p)
    {
      BucketMembers(es, p, i);
    }
    if p > 0 {
      DescendingOrdered(es, p - 1);
      FallingConcat(b, Descending(es, p - 1), p);
    } else {
      FallingConcat(b, [], p);
      assert b + [] == b;
    }
  }

  /** How often an entry is listed, through its own bucket. */
  lemma {:induction false} BucketCount(es: seq<Entry>, p: nat, e: Entry)
    ensures multiset(Bucket(es, p))[e] == if Takes(e, p) then multiset(es)[e] else 0
  {
    if es != [] {
      var n := |es| - 1;
      assert es == es[..n] + [es[n]];
      BucketCount(es[..n], p, e);
    }
  }

  /** A permutation of the parentless entries: each appears as often as in the list. */
  lemma DescendingCount(es: seq<Entry>, p: nat, e: Entry)
    ensures multiset(Descending(es, p))[e] ==
            if e.Entry? && !e.bo.parent && e.priority <= p then multiset(es)[e] else 0
  {
    var r := Descending(es, p);
    if e.Entry? && !e.bo.parent && e.priority <= p {
      DescendingStable(es, p, e.priority);
      BucketCount(r, e.priority, e);
      BucketCount(es, e.priority, e);
    } else {
      DescendingOrdered(es, p);
      assert e !in r;
    }
  }

  /** The whole claim about the sort: for every list, a stable permutation of its
      parentless entries by descending priority. */
  lemma SortedIsStableSort(es: seq<Entry>, e: Entry, q: nat)
    requires Bucketed(es)
    ensures var r := Sorted(es);
            && UpTo(r, MaxPriority) && Falling(r)
            && Bucket(r, q) == Bucket(es, q)
            && multiset(r)[e] == if e.Entry? && !e.bo.parent then multiset(es)[e] else 0
  {
    DescendingOrdered(es, MaxPriority);
    DescendingStable(es, MaxPriority, q);
    DescendingCount(es, MaxPriority, e);
    if q > MaxPriority {
      NoBucket(es, q);
    }
    if e in es {
      var i :| 0 <= i < |es| && es[i] == e;
    } else {
      assert e !in multiset(es);
    }
  }

  lemma {:induction false} NoBucket(es: seq<Entry>, q: nat)
    requires Bucketed(es) && q > MaxPriority
    ensures Bucket(es, q) == []
  {
    if es != [] {
      NoBucket(es[..|es| - 1], q);
    }
  }

  /** What the first i splices put in front. */
  function Spliced(es: seq<Entry>, i: nat): seq<Entry> {
    if i == 0 then [] else Descending(es, i - 1)
  }

  lemma Splice(es: seq<Entry>, i: nat, v: seq<Entry>)
    ensures Bucket(es, i) + (Spliced(es, i) + v) == Spliced(es, i + 1) + v
  {
  }

  /** gsgpu_bo_list_get_list: the sorted entries in front of what was validated before. */
  method GetList(list: array<Entry>, validated0: seq<Entry>) returns (validated: seq<Entry>)
    requires Bucketed(list[..])
    ensures validated == Sorted(list[..]) + validated0
  {
    ghost var es := list[..];
    var bucket := FillBuckets(list);
    validated := validated0;
    var i := 0;
    while i < NumBuckets
      invariant 0 <= i <= NumBuckets
      invariant forall p :: 0 <= p < NumBuckets ==> bucket[p] == Bucket(es, p)
      invariant validated == Spliced(es, i) + validated0
    {
      Splice(es, i, validated0);
      validated := bucket[i] + validated;
      i := i + 1;
    }
  }

  /** The distributing loop of gsgpu_bo_list_get_list. */
  method FillBuckets(list: array<Entry>) returns (bucket: array<seq<Entry>>)
    requires Bucketed(list[..])
    ensures fresh(bucket) && bucket.Length == NumBuckets
    ensures forall p :: 0 <= p < NumBuckets ==> bucket[p] == Bucket(list[..], p)
  {
    bucket := new seq<Entry>[NumBuckets](_ => []);
    ghost var es := list[..];
    var k := 0;
    assert es[..0] == [];
    while k < list.Length
      invariant 0 <= k <= list.Length && es == list[..]
      invariant forall p :: 0 <= p < NumBuckets ==> bucket[p] == Bucket(es[..k], p)
    {
      var e := list[k];
      assert es[..k + 1][..k] == es[..k] && es[k] == e;
      if e.Entry? && !e.bo.parent {
        bucket[e.priority] := bucket[e.priority] + [e];
      }
      k := k + 1;
    }
    assert es[..k] == es;
  }
}
