/** Collapsing raw samples into one point a day, the last of each day. */
module DayBuckets {
  import opened LinearTrend
  import opened RealProducts
  import opened Sorting
  import Sets

  /** When a size was taken, in nanoseconds since some midnight UTC, and the size. */
  datatype Sample = Sample(at: int, bytes: int)

  const DAY_LENGTH := 86_400_000_000_000

  /** Midnight before the instant. */
  function DayOf(at: int): (day: int)
    ensures day <= at < day + DAY_LENGTH && day % DAY_LENGTH == 0
  {
    at - at % DAY_LENGTH
  }

  /** A bucket is twenty-four hours long. */
  lemma DayIs()
    ensures DAY_LENGTH == 24 * 60 * 60 * 1_000_000_000
  {
  }

  // ---- What the buckets are ----

  /** No sample of its day was taken after `s`. */
  ghost predicate LastOfDay(samples: seq<Sample>, s: Sample) {
    && s in samples
    && forall t :: t in samples && DayOf(t.at) == DayOf(s.at) ==> t.at <= s.at
  }

  /** `p` is the bucket of the day of `s`, and carries its bytes. */
  predicate Carries(p: Point, s: Sample) {
    p.day == DayOf(s.at) && p.bytes == s.bytes
  }

  ghost predicate HasDay(pts: seq<Point>, day: int) {
    exists p :: p in pts && p.day == day
  }

  ghost predicate FromLast(samples: seq<Sample>, p: Point) {
    exists s :: LastOfDay(samples, s) && Carries(p, s)
  }

  /** One strictly ascending point for each day on which there is a sample, carrying the bytes of a
      last sample of that day. */
  ghost predicate IsBuckets(samples: seq<Sample>, pts: seq<Point>) {
    && Ascending(pts)
    && (forall s :: s in samples ==> HasDay(pts, DayOf(s.at)))
    && (forall p :: p in pts ==> FromLast(samples, p))
  }

  // ---- The method ----

  predicate NotAfter(a: Sample, b: Sample) {
    a.at <= b.at
  }

  predicate DayNotAfter(p: Point, q: Point) {
    p.day <= q.day
  }

  method DayBucket(samples: seq<Sample>) returns (pts: seq<Point>)
    ensures IsBuckets(samples, pts)
  {
    if samples == [] {
      return [];
    }
    var sorted := Sort(samples, NotAfter);
    PermutationMembers(samples, sorted);
    var byDay := LastByDay(sorted);
    var unordered := InAnyOrder(byDay);
    pts := Sort(unordered, DayNotAfter);
    PermutationMembers(unordered, pts);
    SortedAscends(unordered, pts);
    forall s | s in samples ensures HasDay(pts, DayOf(s.at)) {
      assert Point(DayOf(s.at), byDay[DayOf(s.at)]) in pts;
    }
    forall p | p in pts ensures FromLast(samples, p) {
      var s :| LastOfDay(sorted, s) && DayOf(s.at) == p.day && byDay[p.day] == s.bytes;
      assert LastOfDay(samples, s) && Carries(p, s);
    }
  }

  /** Later samples overwrite earlier ones. */
  method LastByDay(sorted: seq<Sample>) returns (byDay: map<int, int>)
    requires Sorted(sorted, NotAfter)
    ensures forall s :: s in sorted ==> DayOf(s.at) in byDay
    ensures forall d :: d in byDay ==> exists s :: LastOfDay(sorted, s) && DayOf(s.at) == d && byDay[d] == s.bytes
  {
    byDay := map[];
    for n := 0 to |sorted|
      invariant forall s :: s in sorted[..n] ==> DayOf(s.at) in byDay
      invariant forall d :: d in byDay ==>
                  exists s :: LastOfDay(sorted[..n], s) && DayOf(s.at) == d && byDay[d] == s.bytes
    {
      var s := sorted[n];
      var seen, now := sorted[..n], sorted[..n + 1];
      assert now == seen + [s];
      forall t | t in now ensures t.at <= s.at {
        var i :| 0 <= i < |now| && now[i] == t;
        assert i < n ==> NotAfter(sorted[i], sorted[n]);
      }
      assert LastOfDay(now, s);
      var later := byDay[DayOf(s.at) := s.bytes];
      forall d | d in later ensures exists u :: LastOfDay(now, u) && DayOf(u.at) == d && later[d] == u.bytes {
        if d != DayOf(s.at) {
          var u :| LastOfDay(seen, u) && DayOf(u.at) == d && byDay[d] == u.bytes;
          assert LastOfDay(now, u);
        }
      }
      byDay := later;
    }
    assert sorted[..|sorted|] == sorted;
  }

  /** The map's entries, in whatever order it is walked. */
  method InAnyOrder(byDay: map<int, int>) returns (unordered: seq<Point>)
    ensures forall d :: d in byDay ==> Point(d, byDay[d]) in unordered
    ensures forall p :: p in unordered ==> p.day in byDay && p.bytes == byDay[p.day]
    ensures forall i, j :: 0 <= i < j < |unordered| ==> unordered[i].day != unordered[j].day
  {
    unordered := [];
    var days := byDay.Keys;
    while days != {}
      invariant days <= byDay.Keys
      invariant forall d :: d in byDay && d !in days ==> Point(d, byDay[d]) in unordered
      invariant forall p :: p in unordered ==> p.day in byDay && p.day !in days && p.bytes == byDay[p.day]
      invariant forall i, j :: 0 <= i < j < |unordered| ==> unordered[i].day != unordered[j].day
      decreases |days|
    {
      var day := Sets.Next(days);
      forall i | 0 <= i < |unordered| ensures unordered[i].day != day {
        assert unordered[i] in unordered;
      }
      unordered := unordered + [Point(day, byDay[day])];
      days := days - {day};
    }
  }

  lemma SortedAscends(s: seq<Point>, r: seq<Point>)
    requires multiset(s) == multiset(r) && Sorted(r, DayNotAfter)
    requires forall i, j :: 0 <= i < j < |s| ==> s[i].day != s[j].day
    ensures Ascending(r)
  {
    assert Distinct(s);
    DistinctPermutes(s, r);
    PermutationMembers(s, r);
    forall i, j | 0 <= i < j < |r| ensures r[i].day < r[j].day {
      assert DayNotAfter(r[i], r[j]);
      assert r[i] in s && r[j] in s;
    }
  }

  // ---- What the order of the samples can change ----

  /** Samples that are last of the same day agree on the bytes. */
  ghost predicate TiesAgree(samples: seq<Sample>) {
    forall s, t :: LastOfDay(samples, s) && LastOfDay(samples, t) && DayOf(s.at) == DayOf(t.at) ==> s.bytes == t.bytes
  }

  lemma DistinctTimesAgree(samples: seq<Sample>)
    requires forall s, t :: s in samples && t in samples && s.at == t.at ==> s == t
    ensures TiesAgree(samples)
  {
    forall s, t | LastOfDay(samples, s) && LastOfDay(samples, t) && DayOf(s.at) == DayOf(t.at)
      ensures s.bytes == t.bytes
    {
      assert s.at <= t.at && t.at <= s.at;
    }
  }

  /** Strictly ascending points that are the same points are the same sequence. */
  lemma {:induction false} AscendingIsUnique(a: seq<Point>, b: seq<Point>)
    requires Ascending(a) && Ascending(b) && forall p :: p in a <==> p in b
    ensures a == b
  {
    BothOrNeither(a, b);
    BothOrNeither(b, a);
    if a != [] {
      FirstIsLeast(a, b);
      FirstIsLeast(b, a);
      assert a[0].day == b[0].day;
      assert a[0] in b;
      var i :| 0 <= i < |b| && b[i] == a[0];
      assert i == 0;
      forall p ensures p in a[1..] <==> p in b[1..] {
        RestMembers(a, p);
        RestMembers(b, p);
      }
      AscendingIsUnique(a[1..], b[1..]);
      assert a == [a[0]] + a[1..] && b == [b[0]] + b[1..];
    }
  }

  lemma BothOrNeither(a: seq<Point>, b: seq<Point>)
    requires forall p :: p in a ==> p in b
    ensures a != [] ==> b != []
  {
    if a != [] {
      assert a[0] in b;
    }
  }

  lemma FirstIsLeast(a: seq<Point>, b: seq<Point>)
    requires a != [] && b != [] && Ascending(a) && forall p :: p in b ==> p in a
    ensures a[0].day <= b[0].day
  {
    assert b[0] in b;
    var i :| 0 <= i < |a| && a[i] == b[0];
  }

  lemma RestMembers(a: seq<Point>, p: Point)
    requires a != [] && Ascending(a)
    ensures p in a[1..] <==> p in a && p != a[0]
  {
    if p in a && p != a[0] {
      var i :| 0 <= i < |a| && a[i] == p;
      assert a[1..][i - 1] == p;
    }
    if p in a[1..] {
      var i :| 0 <= i < |a| - 1 && a[1..][i] == p;
      assert a[i + 1] == p;
    }
  }

  lemma SamePoints(samples: seq<Sample>, others: seq<Sample>, a: seq<Point>, b: seq<Point>, p: Point)
    requires forall s :: s in samples <==> s in others
    requires IsBuckets(samples, a) && IsBuckets(others, b) && TiesAgree(samples) && p in a
    ensures p in b
  {
    var s :| LastOfDay(samples, s) && Carries(p, s);
    assert HasDay(b, DayOf(s.at));
    var q :| q in b && q.day == DayOf(s.at);
    var t :| LastOfDay(others, t) && Carries(q, t);
    assert LastOfDay(samples, t);
  }

  /** Samples in any order, and with any repeats, give the same buckets when ties agree. */
  lemma OrderDoesNotMatter(samples: seq<Sample>, others: seq<Sample>, a: seq<Point>, b: seq<Point>)
    requires forall s :: s in samples <==> s in others
    requires IsBuckets(samples, a) && IsBuckets(others, b) && TiesAgree(samples)
    ensures a == b
  {
    forall s | LastOfDay(others, s) ensures LastOfDay(samples, s) {
    }
    assert TiesAgree(others);
    forall p ensures p in a <==> p in b {
      if p in a {
        SamePoints(samples, others, a, b, p);
      }
      if p in b {
        SamePoints(others, samples, b, a, p);
      }
    }
    AscendingIsUnique(a, b);
  }

  /** The buckets are fixed by the samples exactly when no day ends on two samples of the same
      instant with different sizes. */
  lemma DeterminedIffTiesAgree(samples: seq<Sample>, pts: seq<Point>)
    requires IsBuckets(samples, pts)
    ensures (forall other :: IsBuckets(samples, other) ==> other == pts) <==> TiesAgree(samples)
  {
    if TiesAgree(samples) {
      forall other | IsBuckets(samples, other) ensures other == pts {
        OrderDoesNotMatter(samples, samples, other, pts);
      }
    } else {
      var s, t :| LastOfDay(samples, s) && LastOfDay(samples, t) && DayOf(s.at) == DayOf(t.at) && s.bytes != t.bytes;
      assert HasDay(pts, DayOf(s.at));
      var i :| 0 <= i < |pts| && pts[i].day == DayOf(s.at);
      var u := if pts[i].bytes == s.bytes then t else s;
      OtherTie(samples, pts, i, u);
    }
  }

  lemma OtherTie(samples: seq<Sample>, pts: seq<Point>, i: nat, u: Sample)
    requires IsBuckets(samples, pts) && i < |pts| && LastOfDay(samples, u)
    requires pts[i].day == DayOf(u.at) && pts[i].bytes != u.bytes
    ensures exists other :: IsBuckets(samples, other) && other != pts
  {
    var other := pts[i := Point(pts[i].day, u.bytes)];
    assert other[i] != pts[i];
    forall s | s in samples ensures HasDay(other, DayOf(s.at)) {
      assert HasDay(pts, DayOf(s.at));
      var k :| 0 <= k < |pts| && pts[k].day == DayOf(s.at);
      assert other[k] in other && other[k].day == pts[k].day;
    }
    forall p | p in other ensures FromLast(samples, p) {
      var k :| 0 <= k < |other| && other[k] == p;
      if k == i {
        assert Carries(p, u);
      } else {
        assert pts[k] in pts;
      }
    }
    assert IsBuckets(samples, other);
  }

  // ---- Buckets feeding the fit ----

  /** A history has a trend exactly when it has samples on two days. */
  lemma TrendIffTwoDays(samples: seq<Sample>, pts: seq<Point>)
    requires IsBuckets(samples, pts)
    ensures FitOf(pts).ok <==> exists s, t :: s in samples && t in samples && DayOf(s.at) != DayOf(t.at)
  {
    hide Times, Cross, Xs;
    FitIffTwoDays(pts);
    if |pts| >= 2 {
      assert pts[0].day != pts[1].day;
      assert pts[0] in pts && pts[1] in pts;
      var s :| LastOfDay(samples, s) && Carries(pts[0], s);
      var t :| LastOfDay(samples, t) && Carries(pts[1], t);
    }
    if s, t :| s in samples && t in samples && DayOf(s.at) != DayOf(t.at) {
      assert HasDay(pts, DayOf(s.at)) && HasDay(pts, DayOf(t.at));
      var i :| 0 <= i < |pts| && pts[i].day == DayOf(s.at);
      var j :| 0 <= j < |pts| && pts[j].day == DayOf(t.at);
      assert |pts| >= 2 && pts[0].day != pts[1].day;
    }
  }

  /** A target whose samples never shrink over time has no negative rate. */
  lemma GrowingNeverShrinks(samples: seq<Sample>, pts: seq<Point>)
    requires IsBuckets(samples, pts) && |pts| >= 2
    requires forall s, t :: s in samples && t in samples && s.at <= t.at ==> s.bytes <= t.bytes
    ensures FitOf(pts).ok && FitOf(pts).bytesPerDay >= 0.0
  {
    hide Times, Over, Cross, Xs, Ys;
    forall i | 0 <= i && i + 1 < |pts| ensures pts[i].bytes <= pts[i + 1].bytes {
      assert pts[i] in pts && pts[i + 1] in pts;
      var s :| LastOfDay(samples, s) && Carries(pts[i], s);
      var t :| LastOfDay(samples, t) && Carries(pts[i + 1], t);
      assert pts[i].day < pts[i + 1].day;
      DaysInOrder(s.at, t.at);
    }
    NeverFallingNeverNegative(pts);
  }

  /** A history whose last sizes of neighbouring days grow by `c` each, with no day without a sample,
      is fitted as growing `c` bytes a day over as many days as it spans. */
  lemma SteadyHistory(samples: seq<Sample>, pts: seq<Point>, c: int)
    requires IsBuckets(samples, pts) && |pts| >= 2
    requires forall i, j :: 0 <= i && j == i + 1 < |pts| ==> pts[j].day - pts[i].day == DAY_LENGTH && pts[j].bytes - pts[i].bytes == c
    ensures FitOf(pts) == Fit(true, c as real, |pts| - 1, |pts|)
  {
    hide FitOf;
    DayIs();
    SteadyFit(pts, c);
  }

  lemma DaysInOrder(a: int, b: int)
    requires DayOf(a) < DayOf(b)
    ensures a < b
  {
  }
}
