/** The least-squares growth rate over day buckets, over the reals. */
module LinearTrend {
  import opened RealProducts

  /** One day's observation: midnight of the day in nanoseconds, and its bytes. */
  datatype Point = Point(day: int, bytes: int)

  datatype Fit = Fit(ok: bool, bytesPerDay: real, windowDays: int, points: nat)

  const DAY: real := 86_400_000_000_000.0

  // ---- Sums over sequences ----

  function Sum(s: seq<real>): real {
    if s == [] then 0.0 else Sum(s[..|s| - 1]) + s[|s| - 1]
  }

  function Dot(a: seq<real>, b: seq<real>): real
    requires |a| == |b|
  {
    if a == [] then 0.0 else Dot(a[..|a| - 1], b[..|b| - 1]) + Times(a[|a| - 1], b[|b| - 1])
  }

  lemma SumSnoc(s: seq<real>, x: real)
    ensures Sum(s + [x]) == Sum(s) + x
  {
    assert (s + [x])[..|s|] == s;
  }

  lemma DotSnoc(a: seq<real>, b: seq<real>, x: real, y: real)
    requires |a| == |b|
    ensures Dot(a + [x], b + [y]) == Dot(a, b) + Times(x, y)
  {
    hide Times;
    assert (a + [x])[..|a|] == a && (b + [y])[..|b|] == b;
  }

  // ---- The fit ----

  function DaysBetween(from: int, to: int): real {
    (to - from) as real / DAY
  }

  /** Days since the first point. */
  function Xs(pts: seq<Point>): (xs: seq<real>)
    ensures |xs| == |pts|
  {
    seq(|pts|, i requires 0 <= i < |pts| => DaysBetween(pts[0].day, pts[i].day))
  }

  function Ys(pts: seq<Point>): (ys: seq<real>)
    ensures |ys| == |pts|
  {
    seq(|pts|, i requires 0 <= i < |pts| => pts[i].bytes as real)
  }

  /** n times the sum of products less the product of the sums. */
  function Cross(a: seq<real>, b: seq<real>): real
    requires |a| == |b|
  {
    Times(|a| as real, Dot(a, b)) - Times(Sum(a), Sum(b))
  }

  /** Half away from zero. */
  function Round(x: real): int {
    if x >= 0.0 then (x + 0.5).Floor else -((-x + 0.5).Floor)
  }

  /** The fit by its formula. */
  function FitOf(pts: seq<Point>): Fit {
    if |pts| < 2 || Cross(Xs(pts), Xs(pts)) == 0.0 then Fit(false, 0.0, 0, |pts|)
    else
      var window := Round(Xs(pts)[|pts| - 1]);
      Fit(true, Over(Cross(Xs(pts), Ys(pts)), Cross(Xs(pts), Xs(pts))), if window < 1 then 1 else window, |pts|)
  }

  method LinearFit(pts: seq<Point>) returns (fit: Fit)
    ensures fit == FitOf(pts)
  {
    hide Times, Over, DaysBetween, Sum, Dot, Round;
    if |pts| < 2 {
      return Fit(false, 0.0, 0, |pts|);
    }
    var x0 := pts[0].day;
    var sumX, sumY, sumXY, sumXX := 0.0, 0.0, 0.0, 0.0;
    var n := |pts| as real;
    ghost var xs, ys := Xs(pts), Ys(pts);
    EmptySums();
    for i := 0 to |pts|
      invariant sumX == Sum(xs[..i]) && sumY == Sum(ys[..i])
      invariant sumXY == Dot(xs[..i], ys[..i]) && sumXX == Dot(xs[..i], xs[..i])
    {
      var x := DaysBetween(x0, pts[i].day);
      var y := pts[i].bytes as real;
      assert xs[..i + 1] == xs[..i] + [x] && ys[..i + 1] == ys[..i] + [y];
      SumSnoc(xs[..i], x);
      SumSnoc(ys[..i], y);
      DotSnoc(xs[..i], ys[..i], x, y);
      DotSnoc(xs[..i], xs[..i], x, x);
      sumX := sumX + x;
      sumY := sumY + y;
      sumXY := sumXY + Times(x, y);
      sumXX := sumXX + Times(x, x);
    }
    assert xs[..|pts|] == xs && ys[..|pts|] == ys;
    var denom := Times(n, sumXX) - Times(sumX, sumX);
    if denom == 0.0 {
      return Fit(false, 0.0, 0, |pts|);
    }
    var slope := Over(Times(n, sumXY) - Times(sumX, sumY), denom);
    var window := Round(DaysBetween(x0, pts[|pts| - 1].day));
    if window < 1 {
      window := 1;
    }
    return Fit(true, slope, window, |pts|);
  }

  lemma EmptySums()
    ensures Sum([]) == 0.0 && Dot([], []) == 0.0
  {
  }

  // ---- Cross as a sum over pairs ----

  /** The products of the differences to one more point. */
  function Pairs(a: seq<real>, b: seq<real>, x: real, y: real): real
    requires |a| == |b|
  {
    if a == [] then 0.0
    else Pairs(a[..|a| - 1], b[..|b| - 1], x, y) + Times(x - a[|a| - 1], y - b[|b| - 1])
  }

  lemma {:induction false} PairsAre(a: seq<real>, b: seq<real>, x: real, y: real)
    requires |a| == |b|
    ensures Pairs(a, b, x, y) == Times(|a| as real, Times(x, y)) - Times(x, Sum(b)) - Times(y, Sum(a)) + Dot(a, b)
  {
    hide Times;
    if a != [] {
      var n := |a| - 1;
      PairsAre(a[..n], b[..n], x, y);
      DifferenceTimesDifference(x, a[n], y, b[n]);
      Distributes(Times(x, y), n as real, 1.0);
      Units(Times(x, y));
      Distributes(x, Sum(b[..n]), b[n]);
      Distributes(y, Sum(a[..n]), a[n]);
      Commutes(y, a[n]);
    } else {
      Units(x);
      Units(y);
      Units(Times(x, y));
    }
  }

  lemma CrossIs(a: seq<real>, b: seq<real>, n: real, d: real, sa: real, sb: real)
    requires |a| == |b| && n == |a| as real && d == Dot(a, b) && sa == Sum(a) && sb == Sum(b)
    ensures Cross(a, b) == Times(n, d) - Times(sa, sb)
  {
    hide Times, Sum, Dot;
  }

  lemma CrossSnoc(a: seq<real>, b: seq<real>, x: real, y: real)
    requires |a| == |b|
    ensures Cross(a + [x], b + [y]) == Cross(a, b) + Pairs(a, b, x, y)
  {
    hide Times, Pairs, Sum, Dot, Cross;
    SumSnoc(a, x);
    SumSnoc(b, y);
    DotSnoc(a, b, x, y);
    PairsAre(a, b, x, y);
    var n, d := |a| as real, Dot(a, b);
    CrossIs(a, b, n, d, Sum(a), Sum(b));
    CrossIs(a + [x], b + [y], n + 1.0, d + Times(x, y), Sum(a) + x, Sum(b) + y);
    SumTimesSum(n, 1.0, d, Times(x, y));
    Units(d);
    Units(Times(x, y));
    SumTimesSum(Sum(a), x, Sum(b), y);
    Commutes(Sum(a), y);
  }

  /** The sequences rise and fall together. */
  ghost predicate SameDirection(a: seq<real>, b: seq<real>)
    requires |a| == |b|
  {
    forall i, j :: 0 <= i < j < |a| ==> Times(a[j] - a[i], b[j] - b[i]) >= 0.0
  }

  lemma {:induction false} PairsNonNegative(a: seq<real>, b: seq<real>, x: real, y: real)
    requires |a| == |b| && forall i :: 0 <= i < |a| ==> Times(x - a[i], y - b[i]) >= 0.0
    ensures Pairs(a, b, x, y) >= 0.0
    ensures forall i :: 0 <= i < |a| ==> Pairs(a, b, x, y) >= Times(x - a[i], y - b[i])
  {
    hide Times;
    if a != [] {
      PairsNonNegative(a[..|a| - 1], b[..|b| - 1], x, y);
    }
  }

  lemma {:induction false} CrossNonNegative(a: seq<real>, b: seq<real>)
    requires |a| == |b| && SameDirection(a, b)
    ensures Cross(a, b) >= 0.0
    ensures forall i, j :: 0 <= i < j < |a| && Times(a[j] - a[i], b[j] - b[i]) > 0.0 ==> Cross(a, b) > 0.0
  {
    hide Times, Pairs, Cross;
    if a != [] {
      var n := |a| - 1;
      var a', b' := a[..n], b[..n];
      CrossNonNegative(a', b');
      PairsNonNegative(a', b', a[n], b[n]);
      CrossSnoc(a', b', a[n], b[n]);
      assert a == a' + [a[n]] && b == b' + [b[n]];
      forall i, j | 0 <= i < j < |a| && Times(a[j] - a[i], b[j] - b[i]) > 0.0 ensures Cross(a, b) > 0.0 {
        if j == n {
          assert Pairs(a', b', a[n], b[n]) >= Times(a[n] - a'[i], b[n] - b'[i]);
        } else {
          assert Times(a'[j] - a'[i], b'[j] - b'[i]) > 0.0;
        }
      }
    } else {
      EmptyCross();
    }
  }

  lemma EmptyCross()
    ensures Cross([], []) == 0.0
  {
  }

  // ---- When there is a fit ----

  lemma SelfDirection(a: seq<real>)
    ensures SameDirection(a, a)
    ensures forall i, j :: 0 <= i < j < |a| && a[i] != a[j] ==> Times(a[j] - a[i], a[j] - a[i]) > 0.0
  {
    hide Times;
    forall i, j | 0 <= i < j < |a|
      ensures Times(a[j] - a[i], a[j] - a[i]) >= 0.0
      ensures a[i] != a[j] ==> Times(a[j] - a[i], a[j] - a[i]) > 0.0
    {
      SquareNonNegative(a[j] - a[i]);
    }
  }

  lemma {:induction false} ConstantCross(a: seq<real>, c: real)
    requires forall i :: 0 <= i < |a| ==> a[i] == c
    ensures Cross(a, a) == 0.0
  {
    hide Times, Pairs, Cross;
    if a != [] {
      var n := |a| - 1;
      ConstantCross(a[..n], c);
      CrossSnoc(a[..n], a[..n], a[n], a[n]);
      assert a == a[..n] + [a[n]];
      ConstantPairs(a[..n], c);
    } else {
      EmptyCross();
    }
  }

  lemma {:induction false} ConstantPairs(a: seq<real>, c: real)
    requires forall i :: 0 <= i < |a| ==> a[i] == c
    ensures Pairs(a, a, c, c) == 0.0
  {
    hide Times;
    if a != [] {
      ConstantPairs(a[..|a| - 1], c);
      Units(0.0);
      assert c - a[|a| - 1] == 0.0;
    }
  }

  lemma DaysDiffer(x0: int, d: int, e: int)
    ensures DaysBetween(x0, d) == DaysBetween(x0, e) <==> d == e
    ensures d < e ==> DaysBetween(x0, d) < DaysBetween(x0, e)
  {
  }

  /** The denominator is never negative, and there is a fit exactly when two points lie on
      different days. */
  lemma FitIffTwoDays(pts: seq<Point>)
    ensures Cross(Xs(pts), Xs(pts)) >= 0.0
    ensures Cross(Xs(pts), Xs(pts)) > 0.0 <==> exists i, j :: 0 <= i < j < |pts| && pts[i].day != pts[j].day
    ensures FitOf(pts).ok <==> exists i, j :: 0 <= i < j < |pts| && pts[i].day != pts[j].day
  {
    hide Times, Cross, DaysBetween;
    var xs := Xs(pts);
    SelfDirection(xs);
    CrossNonNegative(xs, xs);
    if i, j :| 0 <= i < j < |pts| && pts[i].day != pts[j].day {
      DaysDiffer(pts[0].day, pts[i].day, pts[j].day);
      assert Times(xs[j] - xs[i], xs[j] - xs[i]) > 0.0;
    } else if pts != [] {
      forall i | 0 <= i < |xs| ensures xs[i] == xs[0] {
        assert i > 0 ==> pts[0].day == pts[i].day;
      }
      ConstantCross(xs, xs[0]);
    } else {
      assert xs == [];
      EmptyCross();
    }
  }

  // ---- The fit against every other line ----

  /** What each point is above the line a + b x. */
  function Residuals(xs: seq<real>, ys: seq<real>, b: real, a: real): (r: seq<real>)
    requires |xs| == |ys|
    ensures |r| == |xs|
  {
    seq(|xs|, i requires 0 <= i < |xs| => ys[i] - a - Times(b, xs[i]))
  }

  /** The squared error of the line a + b x. */
  function Error(xs: seq<real>, ys: seq<real>, b: real, a: real): real
    requires |xs| == |ys|
  {
    Dot(Residuals(xs, ys, b, a), Residuals(xs, ys, b, a))
  }

  lemma {:induction false} SumOfResiduals(xs: seq<real>, ys: seq<real>, b: real, a: real)
    requires |xs| == |ys|
    ensures var r := Residuals(xs, ys, b, a);
            && Sum(r) == Sum(ys) - Times(|xs| as real, a) - Times(b, Sum(xs))
            && Dot(xs, r) == Dot(xs, ys) - Times(a, Sum(xs)) - Times(b, Dot(xs, xs))
  {
    hide Times;
    if xs != [] {
      var n := |xs| - 1;
      var r, x, y := Residuals(xs, ys, b, a), xs[n], ys[n];
      SumOfResiduals(xs[..n], ys[..n], b, a);
      assert r[..n] == Residuals(xs[..n], ys[..n], b, a);
      Distributes(a, n as real, 1.0);
      Units(a);
      Distributes(b, Sum(xs[..n]), x);
      Distributes(a, Sum(xs[..n]), x);
      Distributes(b, Dot(xs[..n], xs[..n]), Times(x, x));
      Distributes(x, y - a, Times(b, x));
      Distributes(x, y, a);
      Commutes(x, a);
      Commutes(x, Times(b, x));
      Associates(b, x, x);
    } else {
      Units(a);
      Units(b);
    }
  }

  lemma CrossOfResiduals(xs: seq<real>, ys: seq<real>, m: real)
    requires |xs| == |ys|
    ensures Cross(xs, Residuals(xs, ys, m, 0.0)) == Cross(xs, ys) - Times(m, Cross(xs, xs))
  {
    hide Times, Sum, Dot, Residuals, Cross;
    var n, sx, sy, sxy, sxx, r := |xs| as real, Sum(xs), Sum(ys), Dot(xs, ys), Dot(xs, xs), Residuals(xs, ys, m, 0.0);
    SumOfResiduals(xs, ys, m, 0.0);
    Units(n);
    Units(sx);
    CrossIs(xs, r, n, sxy - Times(m, sxx), sx, sy - Times(m, sx));
    CrossIs(xs, ys, n, sxy, sx, sy);
    CrossIs(xs, xs, n, sxx, sx, sx);
    Distributes(n, sxy, Times(m, sxx));
    Distributes(sx, sy, Times(m, sx));
    Distributes(m, Times(n, sxx), Times(sx, sx));
    Swap(n, m, sxx);
    Swap(sx, m, sx);
  }

  lemma Swap(x: real, y: real, z: real)
    ensures Times(x, Times(y, z)) == Times(y, Times(x, z))
  {
    hide Times;
    Associates(x, y, z);
    Associates(y, x, z);
    Commutes(x, y);
  }

  /** The errors of two lines differ by how they differ from each other. */
  function Gaps(xs: seq<real>, db: real, da: real): (g: seq<real>)
    ensures |g| == |xs|
  {
    seq(|xs|, i requires 0 <= i < |xs| => da + Times(db, xs[i]))
  }

  lemma GapSquared(r: real, x: real, db: real, da: real)
    ensures var g := da + Times(db, x);
            Times(r - g, r - g) == Times(r, r) - 2.0 * (Times(da, r) + Times(db, Times(x, r))) + Times(g, g)
  {
    hide Times;
    var g := da + Times(db, x);
    DifferenceTimesDifference(r, g, r, g);
    Commutes(r, g);
    Distributes(r, da, Times(db, x));
    Associates(db, x, r);
  }

  lemma {:induction false} ErrorShift(xs: seq<real>, ys: seq<real>, b: real, a: real, db: real, da: real)
    requires |xs| == |ys|
    ensures var r, g := Residuals(xs, ys, b, a), Gaps(xs, db, da);
            Error(xs, ys, b + db, a + da) ==
            Error(xs, ys, b, a) - 2.0 * (Times(da, Sum(r)) + Times(db, Dot(xs, r))) + Dot(g, g)
  {
    hide Times;
    if xs != [] {
      var n := |xs| - 1;
      ErrorShift(xs[..n], ys[..n], b, a, db, da);
      var r, r', g := Residuals(xs, ys, b, a), Residuals(xs, ys, b + db, a + da), Gaps(xs, db, da);
      assert r[..n] == Residuals(xs[..n], ys[..n], b, a);
      assert r'[..n] == Residuals(xs[..n], ys[..n], b + db, a + da);
      assert g[..n] == Gaps(xs[..n], db, da);
      Distributes(xs[n], b, db);
      assert r'[n] == r[n] - g[n];
      GapSquared(r[n], xs[n], db, da);
      Distributes(da, Sum(r[..n]), r[n]);
      Distributes(db, Dot(xs[..n], r[..n]), Times(xs[n], r[n]));
    } else {
      Units(da);
      Units(db);
    }
  }

  lemma {:induction false} SquaresNonNegative(g: seq<real>)
    ensures Dot(g, g) >= 0.0
  {
    hide Times;
    if g != [] {
      SquaresNonNegative(g[..|g| - 1]);
      SquareNonNegative(g[|g| - 1]);
    }
  }

  /** The intercept that goes with a slope. */
  function Intercept(xs: seq<real>, ys: seq<real>, b: real): real
    requires |xs| == |ys| > 0
  {
    Over(Sum(ys) - Times(b, Sum(xs)), |xs| as real)
  }

  /** At the fitted slope the residuals sum to zero, alone and weighted by x. */
  lemma NormalEquations(xs: seq<real>, ys: seq<real>)
    requires |xs| == |ys| > 0 && Cross(xs, xs) != 0.0
    ensures var b := Over(Cross(xs, ys), Cross(xs, xs));
            var r := Residuals(xs, ys, b, Intercept(xs, ys, b));
            Sum(r) == 0.0 && Dot(xs, r) == 0.0
  {
    hide Times, Over, Sum, Dot, Residuals, Cross;
    var n, sx, sy, sxy, sxx := |xs| as real, Sum(xs), Sum(ys), Dot(xs, ys), Dot(xs, xs);
    var b := Over(Cross(xs, ys), Cross(xs, xs));
    var a := Intercept(xs, ys, b);
    SumOfResiduals(xs, ys, b, a);
    OverTimes(sy - Times(b, sx), n);
    Commutes(a, n);
    assert Times(n, a) == sy - Times(b, sx);
    OverTimes(Cross(xs, ys), Cross(xs, xs));
    CrossIs(xs, ys, n, sxy, sx, sy);
    CrossIs(xs, xs, n, sxx, sx, sx);
    var d := sxy - Times(a, sx) - Times(b, sxx);
    Distributes(n, sxy - Times(a, sx), Times(b, sxx));
    Distributes(n, sxy, Times(a, sx));
    Associates(n, a, sx);
    Distributes(sx, sy, Times(b, sx));
    Commutes(sx, sy);
    Associates(b, sx, sx);
    Swap(n, b, sxx);
    Distributes(b, Times(n, sxx), Times(sx, sx));
    Units(d);
    assert Times(n, d) == 0.0;
    ZeroProduct(n, d);
  }

  lemma ZeroProduct(x: real, y: real)
    requires x > 0.0 && Times(x, y) == 0.0
    ensures y == 0.0
  {
    hide Times;
    ProductSign(x, y);
    ProductSign(x, -y);
    Distributes(x, 0.0, y);
    Units(x);
  }

  /** The fitted line has the least squared error of all lines. */
  lemma FitIsBest(pts: seq<Point>, b: real, a: real)
    requires FitOf(pts).ok
    ensures var xs, ys, slope := Xs(pts), Ys(pts), FitOf(pts).bytesPerDay;
            Error(xs, ys, slope, Intercept(xs, ys, slope)) <= Error(xs, ys, b, a)
  {
    hide Times, Over, Sum, Dot, Residuals, Cross, Error, Intercept, Xs, Ys;
    var xs, ys := Xs(pts), Ys(pts);
    var slope := Over(Cross(xs, ys), Cross(xs, xs));
    var a0 := Intercept(xs, ys, slope);
    NormalEquations(xs, ys);
    ErrorShift(xs, ys, slope, a0, b - slope, a - a0);
    Units(a - a0);
    Units(b - slope);
    SquaresNonNegative(Gaps(xs, b - slope, a - a0));
    assert slope + (b - slope) == b && a0 + (a - a0) == a;
  }

  // ---- The fit between the rates ----

  /** Days strictly ascend, as buckets do. */
  ghost predicate Ascending(pts: seq<Point>) {
    forall i, j :: 0 <= i < j < |pts| ==> pts[i].day < pts[j].day
  }

  /** Bytes per day from one point to the next. */
  function Rate(pts: seq<Point>, i: nat): real
    requires i + 1 < |pts| && pts[i].day != pts[i + 1].day
  {
    Over((pts[i + 1].bytes - pts[i].bytes) as real, DaysBetween(pts[i].day, pts[i + 1].day))
  }

  lemma DaysAdd(x0: int, d: int, e: int)
    ensures DaysBetween(x0, e) - DaysBetween(x0, d) == DaysBetween(d, e)
    ensures DaysBetween(d, d) == 0.0
  {
  }

  lemma RateBound(dy: real, dx: real, m: real)
    requires dx > 0.0
    ensures m <= Over(dy, dx) ==> Times(m, dx) <= dy
    ensures Over(dy, dx) <= m ==> dy <= Times(m, dx)
  {
    hide Times, Over;
    var q := Over(dy, dx);
    OverTimes(dy, dx);
    ProductSign(dx, q - m);
    ProductSign(dx, m - q);
    Distributes(dx, q, m);
    Distributes(dx, m, q);
    Commutes(dx, q);
    Commutes(dx, m);
  }

  lemma {:induction false} Rising(r: seq<real>, i: nat, j: nat)
    requires i <= j < |r| && forall k :: 0 <= k && k + 1 < |r| ==> r[k] <= r[k + 1]
    ensures r[i] <= r[j]
  {
    if i < j {
      Rising(r, i, j - 1);
      assert r[j - 1] <= r[j - 1 + 1];
    }
  }

  /** If no step is below the line of slope m through the point before it, the fit is at least m. */
  lemma CrossAboveRate(xs: seq<real>, ys: seq<real>, m: real)
    requires |xs| == |ys|
    requires forall i, j :: 0 <= i < j < |xs| ==> xs[i] < xs[j]
    requires forall k :: 0 <= k && k + 1 < |xs| ==> Times(m, xs[k + 1] - xs[k]) <= ys[k + 1] - ys[k]
    ensures Times(m, Cross(xs, xs)) <= Cross(xs, ys)
  {
    hide Times, Cross;
    var r := Residuals(xs, ys, m, 0.0);
    forall k | 0 <= k && k + 1 < |r| ensures r[k] <= r[k + 1] {
      assert Times(m, xs[k + 1] - xs[k]) <= ys[k + 1] - ys[k];
      Distributes(m, xs[k + 1], xs[k]);
    }
    forall i, j | 0 <= i < j < |xs| ensures Times(xs[j] - xs[i], r[j] - r[i]) >= 0.0 {
      Rising(r, i, j);
      ProductSign(xs[j] - xs[i], r[j] - r[i]);
    }
    CrossNonNegative(xs, r);
    CrossOfResiduals(xs, ys, m);
  }

  function Negated(s: seq<real>): (r: seq<real>)
    ensures |r| == |s|
  {
    seq(|s|, i requires 0 <= i < |s| => -s[i])
  }

  lemma {:induction false} NegatedSums(a: seq<real>, b: seq<real>)
    requires |a| == |b|
    ensures Sum(Negated(b)) == -Sum(b) && Dot(a, Negated(b)) == -Dot(a, b)
  {
    hide Times;
    if a != [] {
      var n := |a| - 1;
      NegatedSums(a[..n], b[..n]);
      assert Negated(b)[..n] == Negated(b[..n]);
      Distributes(a[n], 0.0, b[n]);
      Units(a[n]);
    }
  }

  lemma CrossNegated(a: seq<real>, b: seq<real>)
    requires |a| == |b|
    ensures Cross(a, Negated(b)) == -Cross(a, b)
  {
    hide Times, Sum, Dot;
    NegatedSums(a, b);
    Distributes(|a| as real, 0.0, Dot(a, b));
    Distributes(Sum(a), 0.0, Sum(b));
    Units(|a| as real);
    Units(Sum(a));
  }

  /** For two or more strictly ascending days there is a fit, and its rate lies between the smallest
      and the largest rate from one day to the next. */
  lemma FitBetweenRates(pts: seq<Point>, lo: real, hi: real)
    requires |pts| >= 2 && Ascending(pts)
    requires forall i :: 0 <= i && i + 1 < |pts| ==> lo <= Rate(pts, i) <= hi
    ensures FitOf(pts).ok && lo <= FitOf(pts).bytesPerDay <= hi
  {
    hide Times, Over, Cross, DaysBetween;
    var xs, ys := Xs(pts), Ys(pts);
    assert pts[0].day != pts[1].day;
    FitIffTwoDays(pts);
    forall i, j | 0 <= i < j < |xs| ensures xs[i] < xs[j] {
      DaysDiffer(pts[0].day, pts[i].day, pts[j].day);
    }
    forall k | 0 <= k && k + 1 < |xs|
      ensures Times(lo, xs[k + 1] - xs[k]) <= ys[k + 1] - ys[k]
      ensures ys[k + 1] - ys[k] <= Times(hi, xs[k + 1] - xs[k])
    {
      DaysAdd(pts[0].day, pts[k].day, pts[k + 1].day);
      assert lo <= Rate(pts, k) <= hi;
      RateBound(ys[k + 1] - ys[k], xs[k + 1] - xs[k], lo);
      RateBound(ys[k + 1] - ys[k], xs[k + 1] - xs[k], hi);
    }
    CrossAboveRate(xs, ys, lo);
    var neg := Negated(ys);
    forall k | 0 <= k && k + 1 < |xs| ensures Times(-hi, xs[k + 1] - xs[k]) <= neg[k + 1] - neg[k] {
      Distributes(xs[k + 1] - xs[k], 0.0, hi);
      Units(xs[k + 1] - xs[k]);
      assert ys[k + 1] - ys[k] <= Times(hi, xs[k + 1] - xs[k]);
    }
    CrossAboveRate(xs, neg, -hi);
    CrossNegated(xs, ys);
    Distributes(Cross(xs, xs), 0.0, hi);
    Units(Cross(xs, xs));
    QuotientBetween(Cross(xs, ys), Cross(xs, xs), lo, hi);
  }

  lemma QuotientBetween(y: real, x: real, lo: real, hi: real)
    requires x > 0.0 && Times(lo, x) <= y <= Times(hi, x)
    ensures lo <= Over(y, x) <= hi
  {
    hide Times, Over;
    var q := Over(y, x);
    OverTimes(y, x);
    Distributes(x, q, lo);
    Distributes(x, hi, q);
    Commutes(x, q);
    Commutes(x, lo);
    Commutes(x, hi);
    ProductSign(x, q - lo);
    ProductSign(x, hi - q);
  }

  /** Bytes that never fall give a rate that is not negative. */
  lemma NeverFallingNeverNegative(pts: seq<Point>)
    requires |pts| >= 2 && Ascending(pts)
    requires forall i :: 0 <= i && i + 1 < |pts| ==> pts[i].bytes <= pts[i + 1].bytes
    ensures FitOf(pts).ok && FitOf(pts).bytesPerDay >= 0.0
  {
    hide Times, Over, Cross, DaysBetween;
    var xs, ys := Xs(pts), Ys(pts);
    assert pts[0].day != pts[1].day;
    FitIffTwoDays(pts);
    forall i, j | 0 <= i < j < |xs| ensures xs[i] < xs[j] {
      DaysDiffer(pts[0].day, pts[i].day, pts[j].day);
    }
    forall k | 0 <= k && k + 1 < |xs| ensures Times(0.0, xs[k + 1] - xs[k]) <= ys[k + 1] - ys[k] {
      Units(xs[k + 1] - xs[k]);
      assert pts[k].bytes <= pts[k + 1].bytes;
    }
    CrossAboveRate(xs, ys, 0.0);
    Units(Cross(xs, xs));
    var y, x := Cross(xs, ys), Cross(xs, xs);
    OverTimes(y, x);
    Commutes(Over(y, x), x);
    ProductSign(x, Over(y, x));
  }

  // ---- Units ----

  /** Rounding goes to the nearest whole number, and away from zero half way between two. */
  lemma RoundIs(x: real)
    ensures -0.5 <= (Round(x) as real) - x <= 0.5
    ensures (Round(x) as real) - x == 0.5 ==> x > 0.0
    ensures (Round(x) as real) - x == -0.5 ==> x < 0.0
  {
  }

  lemma RoundWhole(k: int)
    ensures Round(k as real) == k
  {
    RoundIs(k as real);
  }

  /** Twenty-four hours of nanoseconds are one day. */
  lemma DaysApart(d: int, k: int)
    ensures DaysBetween(d, d + k * 86_400_000_000_000) == k as real
  {
    assert ((d + k * 86_400_000_000_000) - d) as real == (k as real) * 86_400_000_000_000.0;
  }

  lemma SteadyRate(pts: seq<Point>, c: int, i: nat)
    requires i + 1 < |pts| && pts[i + 1].day == pts[i].day + 86_400_000_000_000 && pts[i + 1].bytes == pts[i].bytes + c
    ensures Rate(pts, i) == c as real
  {
    hide Times, Over, DaysBetween;
    DaysApart(pts[i].day, 1);
    OverTimes(c as real, 1.0);
    Units(Over(c as real, 1.0));
    Commutes(Over(c as real, 1.0), 1.0);
  }

  /** Bytes that grow by the same amount from each day to the next give just that amount as the rate
      per day. */
  lemma SteadyGrowth(pts: seq<Point>, c: int)
    requires |pts| >= 2
    requires forall i, j :: 0 <= i && j == i + 1 < |pts| ==>
               pts[j].day == pts[i].day + 86_400_000_000_000 && pts[j].bytes == pts[i].bytes + c
    ensures FitOf(pts).ok && FitOf(pts).bytesPerDay == c as real
  {
    hide Times, Over, Cross, Rate, DaysBetween;
    forall i, j | 0 <= i < j < |pts| ensures pts[i].day < pts[j].day {
      DaysRise(pts, i, j);
    }
    forall i | 0 <= i && i + 1 < |pts| ensures (c as real) <= Rate(pts, i) <= (c as real) {
      assert pts[i + 1].day == pts[i].day + 86_400_000_000_000;
      SteadyRate(pts, c, i);
    }
    FitBetweenRates(pts, c as real, c as real);
  }

  lemma {:induction false} DaysRise(pts: seq<Point>, i: nat, j: nat)
    requires forall i, j :: 0 <= i && j == i + 1 < |pts| ==> pts[i].day < pts[j].day
    requires i < j < |pts|
    ensures pts[i].day < pts[j].day
  {
    if i + 1 < j {
      DaysRise(pts, i, j - 1);
      assert pts[j - 1].day < pts[j].day;
    }
  }

  /** Such points, fitted. */
  lemma SteadyFit(pts: seq<Point>, c: int)
    requires |pts| >= 2
    requires forall i, j :: 0 <= i && j == i + 1 < |pts| ==>
               pts[j].day == pts[i].day + 86_400_000_000_000 && pts[j].bytes == pts[i].bytes + c
    ensures FitOf(pts) == Fit(true, c as real, |pts| - 1, |pts|)
  {
    hide Over, Cross, Round;
    SteadyGrowth(pts, c);
    Spans(pts, |pts| - 1);
    WindowIs(pts, |pts| - 1);
  }

  lemma {:induction false} Spans(pts: seq<Point>, n: nat)
    requires n < |pts|
    requires forall i, j :: 0 <= i && j == i + 1 < |pts| ==> pts[j].day == pts[i].day + 86_400_000_000_000
    ensures pts[n].day == pts[0].day + n * 86_400_000_000_000
  {
    if n > 0 {
      Spans(pts, n - 1);
      assert pts[n].day == pts[n - 1].day + 86_400_000_000_000;
    }
  }

  /** Points that end some days after they began have a fit, over just that many days. */
  lemma FitWindow(pts: seq<Point>, k: int)
    requires |pts| >= 2 && k >= 1 && pts[|pts| - 1].day == pts[0].day + k * 86_400_000_000_000
    ensures FitOf(pts).ok && FitOf(pts).windowDays == k && FitOf(pts).points == |pts|
  {
    hide Over, Cross, Round;
    FitIffTwoDays(pts);
    WindowIs(pts, k);
    assert pts[0].day != pts[|pts| - 1].day;
  }

  /** The window is the number of days between the first point and the last. */
  lemma WindowIs(pts: seq<Point>, k: int)
    requires pts != [] && pts[|pts| - 1].day == pts[0].day + k * 86_400_000_000_000
    ensures Round(Xs(pts)[|pts| - 1]) == k
  {
    hide DaysBetween, Round;
    DaysApart(pts[0].day, k);
    RoundWhole(k);
  }

  /** Whatever the points, the window is the nearest number of days, or one when that is below one. */
  lemma WindowIsNearest(pts: seq<Point>)
    requires FitOf(pts).ok
    ensures var fit, nanos := FitOf(pts), pts[|pts| - 1].day - pts[0].day;
            fit.points == |pts| >= 2 && fit.windowDays >= 1 &&
            (-43_200_000_000_000 <= fit.windowDays * 86_400_000_000_000 - nanos <= 43_200_000_000_000 ||
             (fit.windowDays == 1 && nanos <= 43_200_000_000_000))
  {
    hide Over, Cross, Round;
    var days := Xs(pts)[|pts| - 1];
    RoundIs(days);
    assert days * 86_400_000_000_000.0 == (pts[|pts| - 1].day - pts[0].day) as real;
  }
}
