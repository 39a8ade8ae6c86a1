/** The walk over one file's physical extents: it asks the file system piece by piece, skips holes,
    and stops when it can go no further. */
module ExtentWalk {
  import opened Extents

  /** The answer to "what backs the file at this offset, up to so many bytes". A hole answers with a
      negative physical offset. */
  datatype Query = Query(err: bool, contig: int, physical: int)

  datatype Seek = DataAt(next: int) | NoMoreData | SeekFailed

  datatype File = File(size: int, statfsErr: bool, bsize: nat, query: (int, int) -> Query, seek: int -> Seek)

  function BlockSize(f: File): (bs: nat)
    ensures bs > 0
  {
    if f.statfsErr || f.bsize == 0 then 4096 else f.bsize
  }

  /** What is left of the file, rounded up to whole blocks. */
  function Remaining(f: File, off: int): (r: int)
    requires off < f.size
    ensures f.size - off <= r < f.size - off + BlockSize(f)
  {
    var left := f.size - off;
    if left % BlockSize(f) != 0 then left + (BlockSize(f) - left % BlockSize(f)) else left
  }

  /** A stretch of the file and where it lies on the device. */
  datatype Stretch = Stretch(off: int, physical: int, length: int)

  datatype Walk = Walk(stretches: seq<Stretch>, errs: nat)

  predicate Moves(q: Query) {
    !q.err && q.contig > 0
  }

  function WalkFrom(f: File, off: int): Walk
    decreases f.size - off
  {
    if off >= f.size then Walk([], 0)
    else
      var q := f.query(off, Remaining(f, off));
      if Moves(q) then
        var rest := WalkFrom(f, off + q.contig);
        Walk((if q.physical >= 0 then [Stretch(off, q.physical, q.contig)] else []) + rest.stretches, rest.errs)
      else
        match f.seek(off)
        case NoMoreData => Walk([], 0)
        case SeekFailed => Walk([], 1)
        case DataAt(next) => if next <= off then Walk([], 1) else WalkFrom(f, next)
  }

  /** The pieces a file adds to an extent set. */
  function PiecesOf(dev: int, stretches: seq<Stretch>): (pieces: seq<Piece>)
    ensures |pieces| == |stretches|
  {
    seq(|stretches|, i requires 0 <= i < |stretches| => Piece(dev, stretches[i].physical, stretches[i].length))
  }

  function FilePieces(f: File, dev: int): seq<Piece> {
    PiecesOf(dev, WalkFrom(f, 0).stretches)
  }

  lemma PiecesSnoc(dev: int, done: seq<Stretch>, s: Stretch, byDev: DeviceMap)
    ensures AddedAll(byDev, PiecesOf(dev, done + [s])) ==
            Added(AddedAll(byDev, PiecesOf(dev, done)), dev, s.physical, s.length)
  {
    assert PiecesOf(dev, done + [s])[..|done|] == PiecesOf(dev, done);
  }

  /** A stretch taken from what is to come joins what is done. */
  lemma WalkMoves(f: File, off: int, done: seq<Stretch>)
    requires off < f.size && Moves(f.query(off, Remaining(f, off)))
    ensures var q := f.query(off, Remaining(f, off));
            var rest := WalkFrom(f, off + q.contig);
            && WalkFrom(f, off).errs == rest.errs
            && done + WalkFrom(f, off).stretches ==
               (if q.physical >= 0 then done + [Stretch(off, q.physical, q.contig)] else done) + rest.stretches
  {
    hide Remaining;
  }

  lemma NoPieces(dev: int, byDev: DeviceMap)
    ensures AddedAll(byDev, PiecesOf(dev, [])) == byDev
  {
  }

  /** Each set holds what it held before, and the pieces of the stretches. */
  ghost predicate Hold(sets: seq<ExtentSet>, was: map<ExtentSet, DeviceMap>, dev: int, done: seq<Stretch>)
    reads sets
  {
    forall s :: s in sets ==> s in was && s.Valid() && s.byDev == AddedAll(was[s], PiecesOf(dev, done))
  }

  method AddStretch(sets: seq<ExtentSet>, dev: int, stretch: Stretch,
                    ghost was: map<ExtentSet, DeviceMap>, ghost done: seq<Stretch>)
    requires forall i, j :: 0 <= i < j < |sets| ==> sets[i] != sets[j]
    requires Hold(sets, was, dev, done)
    modifies set s | s in sets
    ensures Hold(sets, was, dev, done + [stretch])
  {
    hide PiecesOf, Added, AddedAll;
    AddToAll(sets, dev, stretch.physical, stretch.length);
    forall s | s in sets ensures s.byDev == AddedAll(was[s], PiecesOf(dev, done + [stretch])) {
      PiecesSnoc(dev, done, stretch, was[s]);
    }
  }

  /** Adds one file to every set it is given; the loop ends because every turn moves forward. */
  method AddFileExtents(f: File, dev: int, sets: seq<ExtentSet>) returns (errs: nat)
    requires forall s :: s in sets ==> s.Valid()
    requires forall i, j :: 0 <= i < j < |sets| ==> sets[i] != sets[j]
    modifies set s | s in sets
    ensures errs == WalkFrom(f, 0).errs
    ensures forall s :: s in sets ==> s.Valid() && s.byDev == AddedAll(old(s.byDev), FilePieces(f, dev))
  {
    hide PiecesOf, Added, AddedAll, Remaining, BlockSize;
    errs := 0;
    ghost var was := map s | s in sets :: s.byDev;
    ghost var done: seq<Stretch> := [];
    forall s | s in sets ensures s.byDev == AddedAll(was[s], PiecesOf(dev, done)) {
      NoPieces(dev, s.byDev);
    }
    if f.size <= 0 {
      return;
    }
    hide Hold;
    var off := 0;
    while off < f.size
      invariant WalkFrom(f, 0).errs == WalkFrom(f, off).errs
      invariant WalkFrom(f, 0).stretches == done + WalkFrom(f, off).stretches
      invariant Hold(sets, was, dev, done)
      decreases f.size - off
    {
      var q := f.query(off, Remaining(f, off));
      if !q.err && q.contig > 0 {
        WalkMoves(f, off, done);
        if q.physical >= 0 {
          var stretch := Stretch(off, q.physical, q.contig);
          AddStretch(sets, dev, stretch, was, done);
          done := done + [stretch];
        }
        off := off + q.contig;
      } else {
        match f.seek(off) {
          case NoMoreData =>
            assert done + [] == done;
            return errs;
          case SeekFailed =>
            assert done + [] == done;
            return errs + 1;
          case DataAt(next) =>
            if next <= off {
              assert done + [] == done;
              return errs + 1;
            }
            off := next;
        }
      }
    }
    assert done + [] == done;
  }

  method AddToAll(sets: seq<ExtentSet>, dev: int, start: int, length: int)
    requires forall s :: s in sets ==> s.Valid()
    requires forall i, j :: 0 <= i < j < |sets| ==> sets[i] != sets[j]
    modifies set s | s in sets
    ensures forall s :: s in sets ==> s.Valid() && s.byDev == Added(old(s.byDev), dev, start, length)
  {
    for i := 0 to |sets|
      invariant forall s :: s in sets ==> s.Valid()
      invariant forall j :: 0 <= j < i ==> sets[j].byDev == Added(old(sets[j].byDev), dev, start, length)
      invariant forall j :: i <= j < |sets| ==> sets[j].byDev == old(sets[j].byDev)
    {
      sets[i].Add(dev, start, length);
    }
  }

  // ---- How much is added ----

  function Lengths(stretches: seq<Stretch>): int {
    if stretches == [] then 0 else stretches[0].length + Lengths(stretches[1..])
  }

  /** The file system never maps more than it was asked for. */
  ghost predicate HonoursRequest(f: File) {
    forall off, max :: f.query(off, max).contig <= max
  }

  /** A stretch inside the file and its last block, after `off`. */
  predicate InBounds(f: File, off: int, s: Stretch) {
    off <= s.off < f.size && s.length > 0 && s.physical >= 0 && s.off + s.length < f.size + BlockSize(f)
  }

  /** One turn of the walk. */
  lemma WalkTurn(f: File, off: int)
    requires off < f.size
    ensures var q, w := f.query(off, Remaining(f, off)), WalkFrom(f, off);
            if Moves(q) then
              var rest := WalkFrom(f, off + q.contig);
              && w.errs == rest.errs
              && w.stretches == (if q.physical >= 0 then [Stretch(off, q.physical, q.contig)] else []) + rest.stretches
            else if f.seek(off).DataAt? && f.seek(off).next > off then w == WalkFrom(f, f.seek(off).next)
            else w.stretches == [] && (w.errs == 0 <==> f.seek(off).NoMoreData?)
  {
  }

  /** The stretches of a walk are real, in order and disjoint in the file; a hole adds nothing. */
  lemma {:induction false} WalkIsOrdered(f: File, off: int)
    requires HonoursRequest(f)
    ensures var w := WalkFrom(f, off).stretches;
            && (forall i :: 0 <= i < |w| ==> InBounds(f, off, w[i]))
            && (forall i, j :: 0 <= i < j < |w| ==> w[i].off + w[i].length <= w[j].off)
    decreases f.size - off
  {
    hide BlockSize;
    if off < f.size {
      WalkTurn(f, off);
      var q := f.query(off, Remaining(f, off));
      assert q.contig <= Remaining(f, off) < f.size - off + BlockSize(f);
      if Moves(q) {
        WalkIsOrdered(f, off + q.contig);
        var rest := WalkFrom(f, off + q.contig).stretches;
        assert forall j :: 0 <= j < |rest| ==> InBounds(f, off, rest[j]);
      } else if f.seek(off).DataAt? && f.seek(off).next > off {
        var next := f.seek(off).next;
        WalkIsOrdered(f, next);
        assert forall j :: 0 <= j < |WalkFrom(f, next).stretches| ==> InBounds(f, off, WalkFrom(f, next).stretches[j]);
      }
    }
  }

  lemma {:induction false} WalkIsBounded(f: File, off: int)
    requires HonoursRequest(f) && off < f.size + BlockSize(f)
    ensures 0 <= Lengths(WalkFrom(f, off).stretches) < f.size + BlockSize(f) - off
    decreases f.size - off
  {
    hide BlockSize;
    if off < f.size {
      WalkTurn(f, off);
      var q := f.query(off, Remaining(f, off));
      assert q.contig <= Remaining(f, off) < f.size - off + BlockSize(f);
      if Moves(q) {
        WalkIsBounded(f, off + q.contig);
        var w, rest := WalkFrom(f, off).stretches, WalkFrom(f, off + q.contig).stretches;
        assert if q.physical >= 0 then w[1..] == rest else w == rest;
      } else if f.seek(off).DataAt? && off < f.seek(off).next < f.size + BlockSize(f) {
        WalkIsBounded(f, f.seek(off).next);
      }
    }
  }

  /** A walk adds fewer bytes than the size of the file plus one block. */
  lemma AddsLessThanSizePlusBlock(f: File)
    requires HonoursRequest(f) && f.size > 0
    ensures Lengths(WalkFrom(f, 0).stretches) < f.size + BlockSize(f)
  {
    WalkIsBounded(f, 0);
  }

  /** Each query asks for what is left rounded up to whole blocks: of 4096 bytes when the file system
      does not say how long its blocks are. */
  lemma AsksForWholeBlocks(f: File, off: int)
    requires off < f.size
    ensures var bs := if f.statfsErr || f.bsize == 0 then 4096 else f.bsize;
            && Remaining(f, off) % bs == 0
            && f.size - off <= Remaining(f, off) < f.size - off + bs
  {
    var bs, left := BlockSize(f), f.size - off;
    if left % bs != 0 {
      var q := left / bs;
      assert left == q * bs + left % bs;
      assert Remaining(f, off) == (q + 1) * bs;
      MultipleOf(q + 1, bs);
    }
  }

  lemma MultipleOf(q: int, bs: int)
    requires bs > 0
    ensures (q * bs) % bs == 0
  {
    var r := (q * bs) % bs;
    var d := (q * bs) / bs;
    assert q * bs == d * bs + r;
    assert r == (q - d) * bs;
    if q - d >= 1 {
      AtLeastOnce(q - d, bs);
    } else if d - q >= 1 {
      AtLeastOnce(d - q, bs);
    }
  }

  lemma AtLeastOnce(k: int, bs: int)
    requires k >= 1 && bs > 0
    ensures k * bs >= bs && (-k) * bs <= -bs
  {
  }

  /** A walk reports at most one error: it stops at the first. */
  lemma {:induction false} AtMostOneError(f: File, off: int)
    ensures WalkFrom(f, off).errs <= 1
    decreases f.size - off
  {
    if off < f.size {
      WalkTurn(f, off);
      var q := f.query(off, Remaining(f, off));
      if Moves(q) {
        AtMostOneError(f, off + q.contig);
      } else if f.seek(off).DataAt? && f.seek(off).next > off {
        AtMostOneError(f, f.seek(off).next);
      }
    }
  }

  /** Where a query gets nowhere, the file system finds the next data or says there is none. */
  ghost predicate Helpful(f: File) {
    forall off :: 0 <= off < f.size && !Moves(f.query(off, Remaining(f, off))) ==>
      f.seek(off).NoMoreData? || (f.seek(off).DataAt? && f.seek(off).next > off)
  }

  /** A walk over a file system that helps out reports no error. */
  lemma {:induction false} HelpfulWalkIsClean(f: File, off: int)
    requires Helpful(f) && off >= 0
    ensures WalkFrom(f, off).errs == 0
    decreases f.size - off
  {
    hide BlockSize, Remaining;
    if off < f.size {
      WalkTurn(f, off);
      var q := f.query(off, Remaining(f, off));
      if Moves(q) {
        HelpfulWalkIsClean(f, off + q.contig);
      } else if f.seek(off).DataAt? {
        HelpfulWalkIsClean(f, f.seek(off).next);
      }
    }
  }

  // ---- What is added ----

  /** `phys` says where each byte of the file lies, a negative number meaning nowhere; the answers of
      the file system agree with it. */
  ghost predicate Faithful(f: File, phys: int -> int) {
    && (forall off, max :: Moves(f.query(off, max)) ==> Maps(f.query(off, max), off, phys))
    && (forall off :: f.seek(off).DataAt? ==> Empty(phys, off, f.seek(off).next))
    && (forall off :: f.seek(off).NoMoreData? ==> Empty(phys, off, f.size))
  }

  ghost predicate Maps(q: Query, off: int, phys: int -> int) {
    forall x :: off <= x < off + q.contig ==> phys(x) == if q.physical >= 0 then q.physical + (x - off) else q.physical
  }

  ghost predicate Empty(phys: int -> int, from: int, to: int) {
    forall x :: from <= x < to ==> phys(x) < 0
  }

  /** Every mapped byte of the file from `off` on lies in some stretch, at its own place. */
  ghost predicate CoversFrom(stretches: seq<Stretch>, f: File, phys: int -> int, off: int) {
    forall x :: off <= x < f.size && phys(x) >= 0 ==> exists s :: s in stretches && Holds(s, x) && phys(x) == s.physical + (x - s.off)
  }

  predicate Holds(s: Stretch, x: int) {
    s.off <= x < s.off + s.length
  }

  /** A walk that reports no error has added every mapped byte of the file. */
  lemma {:induction false} CleanWalkCovers(f: File, phys: int -> int, off: int)
    requires Faithful(f, phys) && WalkFrom(f, off).errs == 0
    ensures CoversFrom(WalkFrom(f, off).stretches, f, phys, off)
    decreases f.size - off
  {
    if off < f.size {
      var w := WalkFrom(f, off).stretches;
      var q := f.query(off, Remaining(f, off));
      if Moves(q) {
        CleanWalkCovers(f, phys, off + q.contig);
        assert Maps(q, off, phys);
        forall x | off <= x < f.size && phys(x) >= 0
          ensures exists s :: s in w && Holds(s, x) && phys(x) == s.physical + (x - s.off)
        {
          if x < off + q.contig {
            assert Holds(w[0], x) && w[0] in w;
          } else {
            var s :| s in WalkFrom(f, off + q.contig).stretches && Holds(s, x) && phys(x) == s.physical + (x - s.off);
            assert s in w;
          }
        }
      } else if f.seek(off).DataAt? {
        CleanWalkCovers(f, phys, f.seek(off).next);
      }
    }
  }

  /** No stretch holds a byte that is not there: holes are never added. */
  lemma {:induction false} WalkAddsOnlyMapped(f: File, phys: int -> int, off: int)
    requires Faithful(f, phys)
    ensures forall s, x :: s in WalkFrom(f, off).stretches && Holds(s, x) ==> phys(x) == s.physical + (x - s.off) >= 0
    decreases f.size - off
  {
    if off < f.size {
      var q := f.query(off, Remaining(f, off));
      if Moves(q) {
        WalkAddsOnlyMapped(f, phys, off + q.contig);
        assert Maps(q, off, phys);
      } else if f.seek(off).DataAt? && f.seek(off).next > off {
        WalkAddsOnlyMapped(f, phys, f.seek(off).next);
      }
    }
  }

  /** The address set of a cleanly walked file holds the place of every mapped byte. */
  lemma CleanFileIsCounted(f: File, phys: int -> int, dev: int, x: int)
    requires Faithful(f, phys) && WalkFrom(f, 0).errs == 0
    requires 0 <= x < f.size && phys(x) >= 0
    ensures (dev, phys(x)) in PieceBytes(FilePieces(f, dev))
  {
    CleanWalkCovers(f, phys, 0);
    var w := WalkFrom(f, 0).stretches;
    var s :| s in w && Holds(s, x) && phys(x) == s.physical + (x - s.off);
    var i :| 0 <= i < |w| && w[i] == s;
    assert FilePieces(f, dev)[i] == Piece(dev, s.physical, s.length);
    assert phys(x) in Interval(s.physical, s.physical + s.length);
  }
}
