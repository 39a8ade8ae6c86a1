/** The library sort every component calls before it sweeps, buckets or lists. Only what any
    correct sort promises is visible to callers, so nothing proved here depends on how ties fall. */
module Sorting {

  ghost predicate TotalPreorder<T(!new)>(leq: (T, T) -> bool) {
    && (forall a, b :: leq(a, b) || leq(b, a))
    && (forall a, b, c :: leq(a, b) && leq(b, c) ==> leq(a, c))
  }

  ghost predicate Sorted<T>(s: seq<T>, leq: (T, T) -> bool) {
    forall i, j :: 0 <= i < j < |s| ==> leq(s[i], s[j])
  }

  /** The position at which `x` goes into the sorted `s`: after everything not above it. */
  method InsertionPoint<T(!new)>(s: seq<T>, x: T, leq: (T, T) -> bool) returns (k: nat)
    requires TotalPreorder(leq) && Sorted(s, leq)
    ensures k <= |s|
    ensures forall i :: 0 <= i < k ==> leq(s[i], x)
    ensures forall i :: k <= i < |s| ==> leq(x, s[i])
  {
    k := |s|;
    while k > 0 && !leq(s[k - 1], x)
      invariant k <= |s|
      invariant forall i :: k <= i < |s| ==> leq(x, s[i])
    {
      k := k - 1;
    }
    forall i | 0 <= i < k ensures leq(s[i], x) {
      if i < k - 1 {
        assert leq(s[i], s[k - 1]);
      }
    }
  }

  lemma InsertedSorted<T(!new)>(s: seq<T>, x: T, k: nat, leq: (T, T) -> bool)
    requires TotalPreorder(leq) && Sorted(s, leq) && k <= |s|
    requires forall i :: 0 <= i < k ==> leq(s[i], x)
    requires forall i :: k <= i < |s| ==> leq(x, s[i])
    ensures Sorted(s[..k] + [x] + s[k..], leq)
  {
  }

  lemma InsertedMultiset<T>(s: seq<T>, x: T, k: nat)
    requires k <= |s|
    ensures multiset(s[..k] + [x] + s[k..]) == multiset(s) + multiset{x}
  {
    assert s == s[..k] + s[k..];
  }

  method Sort<T(!new)>(s: seq<T>, leq: (T, T) -> bool) returns (r: seq<T>)
    requires TotalPreorder(leq)
    ensures multiset(r) == multiset(s)
    ensures Sorted(r, leq)
  {
    r := [];
    for n := 0 to |s|
      invariant multiset(r) == multiset(s[..n])
      invariant Sorted(r, leq)
    {
      var k := InsertionPoint(r, s[n], leq);
      InsertedSorted(r, s[n], k, leq);
      InsertedMultiset(r, s[n], k);
      assert s[..n + 1] == s[..n] + [s[n]];
      r := r[..k] + [s[n]] + r[k..];
    }
    assert s[..|s|] == s;
  }

  lemma PermutationMembers<T>(a: seq<T>, b: seq<T>)
    requires multiset(a) == multiset(b)
    ensures |a| == |b|
    ensures forall x :: x in a <==> x in b
  {
    assert |multiset(a)| == |a| && |multiset(b)| == |b|;
    forall x ensures x in a <==> x in b {
      assert x in a <==> x in multiset(a);
      assert x in b <==> x in multiset(b);
    }
  }

  ghost predicate Distinct<T>(s: seq<T>) {
    forall i, j :: 0 <= i < j < |s| ==> s[i] != s[j]
  }

  lemma OccursTwice<T>(s: seq<T>, j: nat, k: nat)
    requires j < k < |s| && s[j] == s[k]
    ensures multiset(s)[s[j]] >= 2
  {
    assert s == s[..j] + [s[j]] + s[j + 1..k] + [s[k]] + s[k + 1..];
  }

  lemma {:induction false} OccursOnce<T>(s: seq<T>, x: T)
    requires Distinct(s)
    ensures multiset(s)[x] <= 1
  {
    if s != [] {
      var n := |s| - 1;
      OccursOnce(s[..n], x);
      assert s == s[..n] + [s[n]];
      assert s[n] == x ==> x !in s[..n];
    }
  }

  lemma DistinctPermutes<T>(s: seq<T>, r: seq<T>)
    requires multiset(s) == multiset(r) && Distinct(s)
    ensures Distinct(r)
  {
    forall j, k | 0 <= j < k < |r| ensures r[j] != r[k] {
      if r[j] == r[k] {
        OccursTwice(r, j, k);
        OccursOnce(s, r[j]);
      }
    }
  }
}
