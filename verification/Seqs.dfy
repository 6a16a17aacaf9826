/** Sequences without repetition, and counting. */
module Seqs {

  /** 1 for true, 0 for false. */
  function One(p: bool): int {
    if p then 1 else 0
  }

  predicate Distinct<T(==)>(s: seq<T>) {
    forall i, j :: 0 <= i < j < |s| ==> s[i] != s[j]
  }

  /** Moving one element from the front of the rest to the end of the beginning. */
  lemma Appended<T>(s: seq<T>, x: T, t: seq<T>)
    ensures s + ([x] + t) == (s + [x]) + t
  {
  }

  lemma Prepended<T>(x: T, s: seq<T>, t: seq<T>)
    ensures [x] + (s + t) == ([x] + s) + t
  {
  }

  /** Writing t behind b over a sequence that b was written over before. */
  lemma Overwritten<T>(was: seq<T>, b: seq<T>, t: seq<T>, mid: seq<T>, end: seq<T>)
    requires |b| + |t| <= |was| && mid == b + was[|b|..] && end == mid[..|b|] + (t + mid[|b| + |t|..])
    ensures end == (b + t) + was[|b + t|..] == b + (t + was[|b| + |t|..])
  {
    assert mid[|b| + |t|..] == was[|b| + |t|..];
  }

  lemma {:induction false} CountAtMost<T>(s: seq<T>, x: T)
    requires Distinct(s)
    ensures multiset(s)[x] <= 1
  {
    if s != [] {
      var n := |s| - 1;
      assert s == s[..n] + [s[n]];
      CountAtMost(s[..n], x);
      if x == s[n] {
        assert x !in s[..n];
      }
    }
  }

  lemma TwoCount<T>(s: seq<T>, i: nat, j: nat)
    requires i < j < |s| && s[i] == s[j]
    ensures multiset(s)[s[i]] >= 2
  {
    assert s == s[..j] + s[j..];
    assert s[i] in s[..j] && s[j..][0] == s[j];
  }

  /** Being without repetition is a matter of the multiset only, and passes to parts. */
  lemma DistinctPart<T>(all: seq<T>, s: seq<T>)
    requires Distinct(all) && multiset(s) <= multiset(all)
    ensures Distinct(s)
  {
    forall i, j | 0 <= i < j < |s|
      ensures s[i] != s[j]
    {
      CountAtMost(all, s[i]);
      if s[i] == s[j] {
        TwoCount(s, i, j);
        assert false;
      }
    }
  }

  lemma RemoveMembers<T>(s: seq<T>, i: nat, x: T)
    requires Distinct(s) && i < |s|
    ensures x in s[..i] + s[i + 1..] <==> x in s && x != s[i]
  {
    var w := s[..i] + s[i + 1..];
    if x in s && x != s[i] {
      var k :| 0 <= k < |s| && s[k] == x;
      assert w[if k < i then k else k - 1] == x;
    }
    if x in w {
      var k :| 0 <= k < |w| && w[k] == x;
      assert s[if k < i then k else k + 1] == x;
    }
  }

  lemma RemoveDistinct<T>(s: seq<T>, i: nat)
    requires Distinct(s) && i < |s|
    ensures Distinct(s[..i] + s[i + 1..])
  {
    var w := s[..i] + s[i + 1..];
    forall j, k | 0 <= j < k < |w|
      ensures w[j] != w[k]
    {
      var j', k' := if j < i then j else j + 1, if k < i then k else k + 1;
      assert w[j] == s[j'] && w[k] == s[k'];
    }
  }
}
