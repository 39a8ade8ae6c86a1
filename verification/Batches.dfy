/** Counting scan batches: groups of timestamps linked by steps no longer than a gap. */
module Batches {
  import opened Sets
  import opened Sorting

  // ---- The groups ----

  /** A path through the timestamps with no step longer than the gap. */
  ghost predicate Chain(times: seq<int>, gap: int, c: seq<int>) {
    && c != []
    && (forall t :: t in c ==> t in times)
    && (forall i, j :: 0 <= i && j == i + 1 < |c| ==> c[i] - gap <= c[j] <= c[i] + gap)
  }

  ghost predicate Joins(times: seq<int>, gap: int, c: seq<int>, a: int, b: int) {
    Chain(times, gap, c) && c[0] == a && c[|c| - 1] == b
  }

  ghost predicate Linked(times: seq<int>, gap: int, a: int, b: int) {
    exists c :: Joins(times, gap, c, a, b)
  }

  /** One timestamp from each group: every timestamp is linked to one of `r`, and no two of `r` are linked. */
  ghost predicate Represents(times: seq<int>, gap: int, r: set<int>) {
    && (forall t :: t in r ==> t in times)
    && (forall t :: t in times ==> Meets(times, gap, t, r))
    && (forall a, b :: a in r && b in r && Linked(times, gap, a, b) ==> a == b)
  }

  ghost predicate Meets(times: seq<int>, gap: int, t: int, r: set<int>) {
    exists s :: s in r && Linked(times, gap, s, t)
  }

  lemma LinkedBack(times: seq<int>, gap: int, a: int, b: int)
    requires Linked(times, gap, a, b)
    ensures Linked(times, gap, b, a)
  {
    var c :| Joins(times, gap, c, a, b);
    var back := seq(|c|, i requires 0 <= i < |c| => c[|c| - 1 - i]);
    forall i, j | 0 <= i && j == i + 1 < |back| ensures back[i] - gap <= back[j] <= back[i] + gap {
      var k := |c| - 1 - j;
      assert c[k] - gap <= c[k + 1] <= c[k] + gap;
    }
    assert Joins(times, gap, back, b, a);
  }

  lemma LinkedThrough(times: seq<int>, gap: int, a: int, b: int, d: int)
    requires gap >= 0 && Linked(times, gap, a, b) && Linked(times, gap, b, d)
    ensures Linked(times, gap, a, d)
  {
    var c :| Joins(times, gap, c, a, b);
    var e :| Joins(times, gap, e, b, d);
    assert Joins(times, gap, c + e, a, d);
  }

  // ---- The starts of the groups ----

  /** The timestamps with no other less than a gap before. */
  ghost function Starts(times: seq<int>, gap: int): set<int> {
    set t | t in times && Opens(times, gap, t)
  }

  ghost predicate Opens(times: seq<int>, gap: int, t: int) {
    forall u :: u in times && u < t ==> t - u > gap
  }

  /** How many batches there are; with a negative gap even equal timestamps are apart. */
  ghost function Count(times: seq<int>, gap: int): nat {
    if gap < 0 then |times| else |Starts(times, gap)|
  }

  predicate NotAfter(a: int, b: int) {
    a <= b
  }

  method CountBatches(times: seq<int>, gap: int) returns (batches: nat)
    ensures batches == Count(times, gap)
  {
    if times == [] {
      return 0;
    }
    var sorted := Sort(times, NotAfter);
    PermutationMembers(times, sorted);
    OrderDoesNotMatter(times, sorted, gap);
    batches := 1;
    var last := sorted[0];
    FirstStarts(sorted, gap);
    for n := 1 to |sorted|
      invariant last == sorted[n - 1]
      invariant batches == Count(sorted[..n], gap)
    {
      var t := sorted[n];
      NextStarts(sorted, n, gap);
      if t - last > gap {
        batches := batches + 1;
      }
      last := t;
    }
    assert sorted[..|sorted|] == sorted;
  }

  lemma FirstStarts(sorted: seq<int>, gap: int)
    requires sorted != []
    ensures Count(sorted[..1], gap) == 1
  {
    assert sorted[..1] == [sorted[0]];
    assert Starts([sorted[0]], gap) == {sorted[0]};
  }

  lemma OpensStays(seen: seq<int>, t: int, gap: int, u: int)
    requires u <= t
    ensures Opens(seen + [t], gap, u) <==> Opens(seen, gap, u)
  {
    var now := seen + [t];
    if Opens(now, gap, u) {
      forall v | v in seen && v < u ensures u - v > gap {
        assert v in now;
      }
    }
  }

  lemma OpensAfter(seen: seq<int>, t: int, last: int, gap: int)
    requires gap >= 0 && last in seen && last <= t && forall u :: u in seen ==> u <= last
    ensures Opens(seen + [t], gap, t) <==> t - last > gap || (t == last && Opens(seen, gap, t))
  {
    OpensStays(seen, t, gap, t);
  }

  lemma StartsAfter(seen: seq<int>, t: int, last: int, gap: int)
    requires gap >= 0 && last in seen && last <= t && forall u :: u in seen ==> u <= last
    ensures |Starts(seen + [t], gap)| == |Starts(seen, gap)| + if t - last > gap then 1 else 0
  {
    hide Opens;
    var before, after := Starts(seen, gap), Starts(seen + [t], gap);
    OpensAfter(seen, t, last, gap);
    forall u | u in seen ensures Opens(seen + [t], gap, u) <==> Opens(seen, gap, u) {
      OpensStays(seen, t, gap, u);
    }
    if t - last > gap {
      assert after == before + {t};
    } else {
      assert after == before;
    }
  }

  lemma NextStarts(sorted: seq<int>, n: nat, gap: int)
    requires Sorted(sorted, NotAfter) && 0 < n < |sorted|
    ensures Count(sorted[..n + 1], gap) == Count(sorted[..n], gap) + if sorted[n] - sorted[n - 1] > gap then 1 else 0
  {
    var t, last := sorted[n], sorted[n - 1];
    var seen, now := sorted[..n], sorted[..n + 1];
    assert now == seen + [t];
    assert NotAfter(last, t);
    forall u | u in seen ensures u <= last {
      var i :| 0 <= i < n && sorted[i] == u;
      assert i < n - 1 ==> NotAfter(sorted[i], sorted[n - 1]);
    }
    assert last in seen;
    if gap >= 0 {
      StartsAfter(seen, t, last, gap);
    }
  }

  lemma OrderDoesNotMatter(times: seq<int>, others: seq<int>, gap: int)
    requires multiset(times) == multiset(others)
    ensures Count(times, gap) == Count(others, gap)
  {
    PermutationMembers(times, others);
    assert Starts(times, gap) == Starts(others, gap);
  }

  // ---- The starts stand for the groups ----

  /** A chain does not jump over a start. */
  lemma {:induction false} NoChainCrosses(times: seq<int>, gap: int, c: seq<int>, s: int)
    requires Chain(times, gap, c) && s in Starts(times, gap)
    ensures !(c[0] < s <= c[|c| - 1])
    decreases |c|
  {
    if |c| > 1 && c[0] < s {
      assert c[0] in times && c[1] <= c[0] + gap;
      var rest := c[1..];
      forall i, j | 0 <= i && j == i + 1 < |rest| ensures rest[i] - gap <= rest[j] <= rest[i] + gap {
        assert c[j] - gap <= c[j + 1] <= c[j] + gap;
      }
      NoChainCrosses(times, gap, rest, s);
    }
  }

  lemma {:induction false} ReachesStart(times: seq<int>, gap: int, t: int, below: set<int>)
    requires gap >= 0 && t in times && below == set u | u in times && u < t
    ensures Meets(times, gap, t, Starts(times, gap))
    decreases |below|
  {
    if Opens(times, gap, t) {
      assert Joins(times, gap, [t], t, t);
      assert t in Starts(times, gap) && Linked(times, gap, t, t);
    } else {
      var u :| u in times && u < t && t - u <= gap;
      var lower := set v | v in times && v < u;
      assert lower <= below - {u};
      SizeGrows(lower, below - {u});
      ReachesStart(times, gap, u, lower);
      var s :| s in Starts(times, gap) && Linked(times, gap, s, u);
      assert Joins(times, gap, [u, t], u, t);
      LinkedThrough(times, gap, s, u, t);
    }
  }

  lemma StartsRepresent(times: seq<int>, gap: int)
    requires gap >= 0
    ensures Represents(times, gap, Starts(times, gap))
  {
    var starts := Starts(times, gap);
    forall t | t in times ensures Meets(times, gap, t, starts) {
      ReachesStart(times, gap, t, set u | u in times && u < t);
    }
    forall a, b | a in starts && b in starts && Linked(times, gap, a, b) ensures a == b {
      LinkedBack(times, gap, a, b);
      var c :| Joins(times, gap, c, a, b);
      var d :| Joins(times, gap, d, b, a);
      NoChainCrosses(times, gap, c, b);
      NoChainCrosses(times, gap, d, a);
    }
  }

  // ---- Any choice of representatives counts the same ----

  lemma {:induction false} NoMoreThan(times: seq<int>, gap: int, a: set<int>, b: set<int>)
    requires gap >= 0
    requires forall x :: x in a ==> Meets(times, gap, x, b)
    requires forall x, y :: x in a && y in a && Linked(times, gap, x, y) ==> x == y
    ensures |a| <= |b|
    decreases a
  {
    if a != {} {
      var x := Pick(a);
      assert Meets(times, gap, x, b);
      var s :| s in b && Linked(times, gap, s, x);
      forall y | y in a - {x} ensures Meets(times, gap, y, b - {s}) {
        assert Meets(times, gap, y, b);
        var u :| u in b && Linked(times, gap, u, y);
        if u == s {
          LinkedBack(times, gap, s, x);
          LinkedThrough(times, gap, x, s, y);
          assert false;
        }
      }
      NoMoreThan(times, gap, a - {x}, b - {s});
    }
  }

  /** The batches counted are the groups: however one timestamp is chosen from each group,
      there are as many of them. */
  lemma CountsGroups(times: seq<int>, gap: int, r: set<int>)
    requires gap >= 0 && Represents(times, gap, r)
    ensures Count(times, gap) == |r|
  {
    var starts := Starts(times, gap);
    StartsRepresent(times, gap);
    NoMoreThan(times, gap, starts, r);
    NoMoreThan(times, gap, r, starts);
  }

  // ---- A longer gap ----

  lemma {:induction false} MembersAtMost(s: seq<int>)
    ensures |set t | t in s| <= |s|
  {
    if s != [] {
      var n := |s| - 1;
      MembersAtMost(s[..n]);
      assert s == s[..n] + [s[n]];
      assert (set t | t in s) == (set t | t in s[..n]) + {s[n]};
    } else {
      assert (set t | t in s) == {};
    }
  }

  /** The count never grows as the gap grows. */
  lemma LongerGapNeverMore(times: seq<int>, gap: int, longer: int)
    requires gap <= longer
    ensures Count(times, longer) <= Count(times, gap)
  {
    if longer >= 0 {
      assert Starts(times, longer) <= set t | t in times;
      MembersAtMost(times);
      SizeGrows(Starts(times, longer), set t | t in times);
      if gap >= 0 {
        assert Starts(times, longer) <= Starts(times, gap);
        SizeGrows(Starts(times, longer), Starts(times, gap));
      }
    }
  }

  /** There is one batch exactly when all the timestamps are linked. */
  lemma OneBatchIff(times: seq<int>, gap: int)
    requires gap >= 0 && times != []
    ensures Count(times, gap) == 1 <==> forall a, b :: a in times && b in times ==> Linked(times, gap, a, b)
  {
    hide Linked, Opens;
    var starts := Starts(times, gap);
    StartsRepresent(times, gap);
    assert Meets(times, gap, times[0], starts);
    var s :| s in starts && Linked(times, gap, s, times[0]);
    if forall a, b :: a in times && b in times ==> Linked(times, gap, a, b) {
      forall u | u in starts ensures u == s {
        assert Linked(times, gap, u, s);
      }
      assert starts == {s};
    }
    if |starts| == 1 {
      assert |starts - {s}| == 0;
      assert starts == {s};
      forall a, b | a in times && b in times ensures Linked(times, gap, a, b) {
        assert Meets(times, gap, a, starts) && Meets(times, gap, b, starts);
        LinkedBack(times, gap, s, a);
        LinkedThrough(times, gap, a, s, b);
      }
    }
  }
}
