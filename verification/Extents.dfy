/** Physical byte intervals per device, and the sorted sweep that measures their union. */
module Extents {
  import opened Sets
  import opened Sorting

  /** The half-open interval of byte addresses [start, end). */
  datatype Extent = Extent(start: int, end: int)

  type DeviceMap = map<int, seq<Extent>>

  predicate Within(a: int, x: int, b: int) {
    a <= x < b
  }

  /** The addresses from `a` up to but not including `b`. */
  ghost function Interval(a: int, b: int): set<int> {
    set x: int | a <= x < b && Within(a, x, b)
  }

  /** The addresses covered by at least one extent. */
  ghost function Covered(exts: seq<Extent>): set<int> {
    set e, x | e in exts && x in Interval(e.start, e.end) :: x
  }

  /** The covered addresses of the given devices: device and address together. */
  ghost function BytesOn(byDev: DeviceMap, devs: set<int>): set<(int, int)> {
    set d, x | d in devs && d in byDev && x in Covered(byDev[d]) :: (d, x)
  }

  ghost function Bytes(byDev: DeviceMap): set<(int, int)> {
    BytesOn(byDev, byDev.Keys)
  }

  predicate ByStart(a: Extent, b: Extent) {
    a.start <= b.start
  }

  ghost predicate Proper(exts: seq<Extent>) {
    forall e :: e in exts ==> e.start < e.end
  }

  /** Recording one extent; an empty or negative length is ignored. */
  function Added(byDev: DeviceMap, dev: int, start: int, length: int): DeviceMap {
    if length <= 0 then byDev
    else byDev[dev := (if dev in byDev then byDev[dev] else []) + [Extent(start, start + length)]]
  }

  // ---- Sizes of sets ----

  lemma {:induction false} IntervalSize(a: int, b: int)
    requires a <= b
    ensures |Interval(a, b)| == b - a
    decreases b - a
  {
    if a < b {
      IntervalSize(a, b - 1);
      assert Interval(a, b) == Interval(a, b - 1) + {b - 1};
    }
  }

  ghost function OnDevice(d: int, xs: set<int>): set<(int, int)> {
    set x | x in xs :: (d, x)
  }

  lemma {:induction false} OnDeviceSize(d: int, xs: set<int>)
    ensures |OnDevice(d, xs)| == |xs|
  {
    if xs != {} {
      var x := Pick(xs);
      OnDeviceSize(d, xs - {x});
      assert OnDevice(d, xs) == OnDevice(d, xs - {x}) + {(d, x)};
    }
  }

  // ---- The sweep ----

  /** The sweep after some sorted extents: `sum` counts the finished runs, [lo, hi) is the open one,
      and together they are exactly what is covered. */
  ghost predicate Swept(exts: seq<Extent>, sum: int, lo: int, hi: int) {
    && lo < hi
    && |Covered(exts)| == sum + (hi - lo)
    && Interval(lo, hi) <= Covered(exts)
    && forall x :: x in Covered(exts) ==> x < hi
  }

  lemma CoveredSnoc(exts: seq<Extent>, e: Extent)
    ensures Covered(exts + [e]) == Covered(exts) + Interval(e.start, e.end)
  {
    forall x ensures x in Covered(exts + [e]) <==> x in Covered(exts) || x in Interval(e.start, e.end) {
      if x in Covered(exts) {
        var f :| f in exts && x in Interval(f.start, f.end);
        assert f in exts + [e];
      }
      if x in Interval(e.start, e.end) {
        assert e in exts + [e];
      }
    }
  }

  lemma SweepMerges(exts: seq<Extent>, e: Extent, sum: int, lo: int, hi: int)
    requires Swept(exts, sum, lo, hi) && e.start < e.end && lo <= e.start <= hi
    ensures Swept(exts + [e], sum, lo, if e.end > hi then e.end else hi)
  {
    CoveredSnoc(exts, e);
    var had, hi' := Covered(exts), if e.end > hi then e.end else hi;
    IntervalSize(hi, hi');
    forall x ensures x in had + Interval(e.start, e.end) <==> x in had || x in Interval(hi, hi') {
      if e.start <= x < hi {
        assert x in Interval(lo, hi);
      }
    }
    assert had + Interval(e.start, e.end) == had + Interval(hi, hi');
    assert had !! Interval(hi, hi');
    forall x | x in Interval(lo, hi') ensures x in had + Interval(hi, hi') {
      assert x in Interval(lo, hi) || x in Interval(hi, hi');
    }
  }

  lemma SweepOpens(exts: seq<Extent>, e: Extent, sum: int, lo: int, hi: int)
    requires Swept(exts, sum, lo, hi) && hi < e.start < e.end
    ensures Swept(exts + [e], sum + (hi - lo), e.start, e.end)
  {
    CoveredSnoc(exts, e);
    IntervalSize(e.start, e.end);
    assert Covered(exts) !! Interval(e.start, e.end);
  }

  method Sweep(exts: seq<Extent>) returns (sum: int)
    requires Sorted(exts, ByStart) && Proper(exts)
    ensures sum == |Covered(exts)|
  {
    sum := 0;
    var curStart, curEnd := 0, 0;
    var open := false;
    for i := 0 to |exts|
      invariant open <==> i > 0
      invariant !open ==> sum == 0
      invariant open ==> Swept(exts[..i], sum, curStart, curEnd) && exists j :: 0 <= j < i && exts[j].start == curStart
    {
      var e := exts[i];
      assert exts[..i + 1] == exts[..i] + [e];
      if !open {
        curStart, curEnd, open := e.start, e.end, true;
        CoveredSnoc([], e);
        assert exts[..i + 1] == [] + [e];
        IntervalSize(e.start, e.end);
      } else if e.start <= curEnd {
        SweepMerges(exts[..i], e, sum, curStart, curEnd);
        if e.end > curEnd {
          curEnd := e.end;
        }
      } else {
        SweepOpens(exts[..i], e, sum, curStart, curEnd);
        sum := sum + (curEnd - curStart);
        curStart, curEnd := e.start, e.end;
      }
    }
    assert exts[..|exts|] == exts;
    if open {
      sum := sum + (curEnd - curStart);
    }
  }

  // ---- The set ----

  lemma PermutedExtents(a: seq<Extent>, b: seq<Extent>)
    requires multiset(a) == multiset(b)
    ensures Covered(a) == Covered(b) && (Proper(a) <==> Proper(b))
  {
    PermutationMembers(a, b);
  }

  class ExtentSet {
    var byDev: DeviceMap

    ghost predicate Valid()
      reads this
    {
      forall d :: d in byDev ==> Proper(byDev[d])
    }

    constructor ()
      ensures Valid() && byDev == map[]
    {
      byDev := map[];
    }

    method Add(dev: int, start: int, length: int)
      requires Valid()
      modifies this
      ensures Valid() && byDev == Added(old(byDev), dev, start, length)
    {
      if length <= 0 {
        return;
      }
      var had := if dev in byDev then byDev[dev] else [];
      byDev := byDev[dev := had + [Extent(start, start + length)]];
    }

    /** Sorts every device's extents in place and sweeps them, devices in any order. */
    method Total() returns (sum: int)
      requires Valid()
      modifies this
      ensures Valid() && sum == |Bytes(old(byDev))|
      ensures byDev.Keys == old(byDev).Keys && Bytes(byDev) == Bytes(old(byDev))
      ensures forall d :: d in byDev ==> multiset(byDev[d]) == multiset(old(byDev)[d])
    {
      sum := 0;
      ghost var was := byDev;
      var todo := byDev.Keys;
      assert BytesOn(was, {}) == {};
      while todo != {}
        invariant todo <= was.Keys && byDev.Keys == was.Keys && Valid()
        invariant forall d :: d in was ==> multiset(byDev[d]) == multiset(was[d])
        invariant sum == |BytesOn(was, was.Keys - todo)|
        decreases todo
      {
        var d := Next(todo);
        var sorted := Sort(byDev[d], ByStart);
        PermutedExtents(sorted, was[d]);
        PermutedExtents(sorted, byDev[d]);
        byDev := byDev[d := sorted];
        var n := Sweep(sorted);
        DeviceCounted(was, was.Keys - todo, d);
        assert was.Keys - todo + {d} == was.Keys - (todo - {d});
        sum := sum + n;
        todo := todo - {d};
      }
      assert was.Keys - {} == was.Keys;
      forall d | d in was ensures Covered(byDev[d]) == Covered(was[d]) {
        PermutedExtents(byDev[d], was[d]);
      }
    }
  }

  lemma DeviceCounted(byDev: DeviceMap, devs: set<int>, d: int)
    requires d !in devs && d in byDev
    ensures |BytesOn(byDev, devs + {d})| == |BytesOn(byDev, devs)| + |Covered(byDev[d])|
  {
    assert BytesOn(byDev, devs + {d}) == BytesOn(byDev, devs) + OnDevice(d, Covered(byDev[d]));
    assert BytesOn(byDev, devs) !! OnDevice(d, Covered(byDev[d]));
    OnDeviceSize(d, Covered(byDev[d]));
  }

  // ---- Any list of adds ----

  datatype Piece = Piece(dev: int, start: int, length: int)

  function AddedAll(byDev: DeviceMap, pieces: seq<Piece>): DeviceMap {
    if pieces == [] then byDev
    else
      var n := |pieces| - 1;
      Added(AddedAll(byDev, pieces[..n]), pieces[n].dev, pieces[n].start, pieces[n].length)
  }

  /** The addresses of some pieces, whatever their order. */
  ghost function PieceBytes(pieces: seq<Piece>): set<(int, int)> {
    set p, x | p in pieces && x in Interval(p.start, p.start + p.length) :: (p.dev, x)
  }

  lemma AddedBytes(byDev: DeviceMap, p: Piece)
    ensures Bytes(Added(byDev, p.dev, p.start, p.length)) == Bytes(byDev) + PieceBytes([p])
  {
    var after := Added(byDev, p.dev, p.start, p.length);
    if p.length > 0 {
      var had := if p.dev in byDev then byDev[p.dev] else [];
      CoveredSnoc(had, Extent(p.start, p.start + p.length));
      assert p in [p];
      forall d, x ensures (d, x) in Bytes(after) <==> (d, x) in Bytes(byDev) + PieceBytes([p]) {
        if d == p.dev {
          assert (d, x) in Bytes(after) <==> x in Covered(had) || x in Interval(p.start, p.start + p.length);
        }
      }
      assert Bytes(after) == Bytes(byDev) + PieceBytes([p]);
    }
  }

  /** The bytes in the set after any adds are the bytes before them and those of the pieces. */
  lemma {:induction false} AddsUnion(byDev: DeviceMap, pieces: seq<Piece>)
    ensures Bytes(AddedAll(byDev, pieces)) == Bytes(byDev) + PieceBytes(pieces)
  {
    if pieces != [] {
      var n := |pieces| - 1;
      AddsUnion(byDev, pieces[..n]);
      AddedBytes(AddedAll(byDev, pieces[..n]), pieces[n]);
      PieceBytesAppend(pieces[..n], [pieces[n]]);
      assert pieces == pieces[..n] + [pieces[n]];
    }
  }

  lemma PieceBytesAppend(a: seq<Piece>, b: seq<Piece>)
    ensures PieceBytes(a + b) == PieceBytes(a) + PieceBytes(b)
  {
    forall q ensures q in PieceBytes(a + b) <==> q in PieceBytes(a) + PieceBytes(b) {
      if q in PieceBytes(a) + PieceBytes(b) {
        var p :| (p in a || p in b) && q.0 == p.dev && q.1 in Interval(p.start, p.start + p.length);
        assert p in a + b;
      }
    }
  }

  lemma PieceBytesPermuted(a: seq<Piece>, b: seq<Piece>)
    requires multiset(a) == multiset(b)
    ensures PieceBytes(a) == PieceBytes(b)
  {
    PermutationMembers(a, b);
  }

  /** The total does not depend on the order of the adds. */
  lemma TotalIgnoresOrder(byDev: DeviceMap, pieces: seq<Piece>, shuffled: seq<Piece>)
    requires multiset(pieces) == multiset(shuffled)
    ensures |Bytes(AddedAll(byDev, pieces))| == |Bytes(AddedAll(byDev, shuffled))|
  {
    AddsUnion(byDev, pieces);
    AddsUnion(byDev, shuffled);
    PieceBytesPermuted(pieces, shuffled);
  }

  lemma PieceSize(p: Piece)
    ensures |PieceBytes([p])| == if p.length > 0 then p.length else 0
  {
    var n := if p.length > 0 then p.length else 0;
    assert Interval(p.start, p.start + p.length) == Interval(p.start, p.start + n);
    assert p in [p];
    assert PieceBytes([p]) == OnDevice(p.dev, Interval(p.start, p.start + n));
    OnDeviceSize(p.dev, Interval(p.start, p.start + n));
    IntervalSize(p.start, p.start + n);
  }

  /** An add never lowers the total, and raises it by at most what the piece is long. */
  lemma TotalGrows(byDev: DeviceMap, p: Piece)
    ensures var before, after := |Bytes(byDev)|, |Bytes(Added(byDev, p.dev, p.start, p.length))|;
            before <= after <= before + if p.length > 0 then p.length else 0
  {
    var before, added := Bytes(byDev), PieceBytes([p]);
    AddedBytes(byDev, p);
    PieceSize(p);
    SizeGrows(before, before + added);
    UnionSize(before, added);
  }
}
