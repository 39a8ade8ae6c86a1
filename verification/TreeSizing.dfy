/** Unique allocated bytes of trees: in one call over many roots, or accumulated tree by tree. */
module TreeSizing {
  import opened Extents
  import opened ExtentWalk
  import opened Options
  import opened Sets

  datatype FileKey = FileKey(dev: int, ino: int)

  /** What the directory walk meets, in the order it meets it. */
  datatype Visit =
    | RootError
    | EntryError
    | NotRegular
    | InfoError(gone: bool)
    | NoStat
    | Regular(key: FileKey, file: File, blocks: int, openErr: bool)

  type Listing = seq<Visit>

  datatype TreeSize = TreeSize(files: nat, errs: nat, logical: int, blocks: int, uniqueAllocated: int)

  const EMPTY := TreeSize(0, 0, 0, 0, 0)

  const BLOCK_UNIT := 512

  /** Hard links already met, shared by the roots of one call. */
  class SeenFiles {
    var keys: set<FileKey>

    constructor ()
      ensures keys == {}
    {
      keys := {};
    }
  }

  // ---- One walk as a function ----

  datatype Walked = Walked(ok: bool, seen: set<FileKey>, size: TreeSize, pieces: seq<Piece>)

  /** One callback of the walk. */
  function Visited(w: Walked, v: Visit): Walked {
    match v
    case RootError => w.(ok := false)
    case EntryError => w.(size := w.size.(errs := w.size.errs + 1))
    case NotRegular => w
    case InfoError(gone) => if gone then w else w.(size := w.size.(errs := w.size.errs + 1))
    case NoStat => w.(size := w.size.(errs := w.size.errs + 1))
    case Regular(key, file, blocks, openErr) =>
      if key in w.seen then w
      else
        var counted := w.size.(files := w.size.files + 1, logical := w.size.logical + file.size,
                               blocks := w.size.blocks + blocks * BLOCK_UNIT);
        if openErr then Walked(w.ok, w.seen + {key}, counted.(errs := counted.errs + 1), w.pieces)
        else Walked(w.ok, w.seen + {key}, counted.(errs := counted.errs + WalkFrom(file, 0).errs),
                    w.pieces + FilePieces(file, key.dev))
  }

  /** The walk stops at the first error on the root. */
  function WalkedTree(w: Walked, listing: Listing): Walked
    decreases |listing|
  {
    if listing == [] || !w.ok then w else WalkedTree(Visited(w, listing[0]), listing[1..])
  }

  function WalkedTrees(w: Walked, trees: seq<Listing>): Walked
    decreases |trees|
  {
    if trees == [] || !w.ok then w else WalkedTrees(WalkedTree(w, trees[0]), trees[1..])
  }

  function Start(seen: set<FileKey>, size: TreeSize): Walked {
    Walked(true, seen, size, [])
  }

  // ---- The walk itself ----

  ghost predicate AllValid(sets: seq<ExtentSet>)
    reads set s | s in sets
  {
    && (forall s :: s in sets ==> s.Valid())
    && (forall i, j :: 0 <= i < j < |sets| ==> sets[i] != sets[j])
  }

  lemma {:induction false} AddedAllAppend(byDev: DeviceMap, a: seq<Piece>, b: seq<Piece>)
    ensures AddedAll(byDev, a + b) == AddedAll(AddedAll(byDev, a), b)
  {
    if b == [] {
      assert a + b == a;
    } else {
      var n := |b| - 1;
      AddedAllAppend(byDev, a, b[..n]);
      assert (a + b)[..|a + b| - 1] == a + b[..n];
    }
  }

  method WalkExtents(listing: Listing, seen: SeenFiles, size: TreeSize, sets: seq<ExtentSet>)
    returns (ok: bool, size': TreeSize)
    requires AllValid(sets)
    modifies seen, set s | s in sets
    ensures AllValid(sets)
    ensures var w := WalkedTree(Start(old(seen.keys), size), listing);
            && ok == w.ok && seen.keys == w.seen && size' == w.size
            && forall s :: s in sets ==> s.byDev == AddedAll(old(s.byDev), w.pieces)
  {
    hide FilePieces;
    size' := size;
    ghost var w := Start(seen.keys, size);
    ghost var whole := WalkedTree(w, listing);
    assert listing[0..] == listing;
    for i := 0 to |listing|
      invariant w.ok && WalkedTree(w, listing[i..]) == whole
      invariant seen.keys == w.seen && size' == w.size
      invariant AllValid(sets)
      invariant forall s :: s in sets ==> s.byDev == AddedAll(old(s.byDev), w.pieces)
    {
      var v := listing[i];
      assert listing[i..][1..] == listing[i + 1..];
      ghost var next := Visited(w, v);
      if v.RootError? {
        return false, size';
      }
      match v {
        case RootError =>
        case EntryError => size' := size'.(errs := size'.errs + 1);
        case NotRegular =>
        case InfoError(gone) =>
          if !gone {
            size' := size'.(errs := size'.errs + 1);
          }
        case NoStat => size' := size'.(errs := size'.errs + 1);
        case Regular(key, file, blocks, openErr) =>
          if key !in seen.keys {
            size' := AddRegular(key, file, blocks, openErr, seen, size', sets);
            forall s | s in sets ensures s.byDev == AddedAll(old(s.byDev), next.pieces) {
              AddedAllAppend(old(s.byDev), w.pieces, FilePieces(file, key.dev));
            }
          }
      }
      w := next;
    }
    return true, size';
  }

  /** A regular file met for the first time. */
  method AddRegular(key: FileKey, file: File, blocks: int, openErr: bool, seen: SeenFiles, size: TreeSize, sets: seq<ExtentSet>)
    returns (size': TreeSize)
    requires AllValid(sets) && key !in seen.keys
    modifies seen, set s | s in sets
    ensures AllValid(sets) && seen.keys == old(seen.keys) + {key}
    ensures size' == Visited(Walked(true, {}, size, []), Regular(key, file, blocks, openErr)).size
    ensures forall s :: s in sets ==>
              s.byDev == if openErr then old(s.byDev) else AddedAll(old(s.byDev), FilePieces(file, key.dev))
  {
    seen.keys := seen.keys + {key};
    size' := size.(files := size.files + 1, logical := size.logical + file.size, blocks := size.blocks + blocks * BLOCK_UNIT);
    if openErr {
      size' := size'.(errs := size'.errs + 1);
    } else {
      var errs := AddFileExtents(file, key.dev, sets);
      size' := size'.(errs := size'.errs + errs);
    }
  }

  /** Several roots with one memory of hard links; stops at the first root that cannot be walked. */
  method WalkAll(trees: seq<Listing>, sets: seq<ExtentSet>) returns (ok: bool, size: TreeSize)
    requires AllValid(sets)
    modifies set s | s in sets
    ensures AllValid(sets)
    ensures var w := WalkedTrees(Start({}, EMPTY), trees);
            && ok == w.ok && size == w.size
            && forall s :: s in sets ==> s.byDev == AddedAll(old(s.byDev), w.pieces)
  {
    hide WalkedTree;
    size := EMPTY;
    var seen := new SeenFiles();
    ghost var w := Start({}, EMPTY);
    ghost var whole := WalkedTrees(w, trees);
    assert trees[0..] == trees;
    for i := 0 to |trees|
      invariant fresh(seen)
      invariant w.ok && WalkedTrees(w, trees[i..]) == whole
      invariant seen.keys == w.seen && size == w.size
      invariant AllValid(sets)
      invariant forall s :: s in sets ==> s.byDev == AddedAll(old(s.byDev), w.pieces)
    {
      assert trees[i..][1..] == trees[i + 1..];
      ghost var next := WalkedTree(w, trees[i]);
      WalkedFrom(w, trees[i]);
      ok, size := WalkExtents(trees[i], seen, size, sets);
      forall s | s in sets ensures s.byDev == AddedAll(old(s.byDev), next.pieces) {
        AddedAllAppend(old(s.byDev), w.pieces, WalkedTree(Start(w.seen, w.size), trees[i]).pieces);
      }
      w := next;
      if !ok {
        assert WalkedTrees(w, trees[i + 1..]) == w;
        return;
      }
    }
    return true, size;
  }

  /** What was added before does not change what a walk adds. */
  lemma {:induction false} WalkedFrom(w: Walked, listing: Listing)
    requires w.ok
    ensures var rest := WalkedTree(Start(w.seen, w.size), listing);
            WalkedTree(w, listing) == rest.(pieces := w.pieces + rest.pieces)
    decreases |listing|
  {
    if listing != [] {
      var from0, from1 := Visited(w, listing[0]), Visited(Start(w.seen, w.size), listing[0]);
      assert from0 == from1.(pieces := w.pieces + from1.pieces);
      if from0.ok {
        WalkedFrom(from0, listing[1..]);
        WalkedFrom(from1, listing[1..]);
        var tail := WalkedTree(Start(from0.seen, from0.size), listing[1..]);
        assert w.pieces + (from1.pieces + tail.pieces) == (w.pieces + from1.pieces) + tail.pieces;
      }
    }
  }

  method UniqueAllocated(trees: seq<Listing>) returns (ok: bool, size: TreeSize)
    ensures var w := WalkedTrees(Start({}, EMPTY), trees);
            && ok == w.ok
            && size == if ok then w.size.(uniqueAllocated := |PieceBytes(w.pieces)|) else EMPTY
  {
    var extents := new ExtentSet();
    ok, size := WalkAll(trees, [extents]);
    if !ok {
      return false, EMPTY;
    }
    AddsUnion(map[], WalkedTrees(Start({}, EMPTY), trees).pieces);
    assert extents in [extents];
    var total := extents.Total();
    size := size.(uniqueAllocated := total);
  }

  /** Per-tree figures and the figure of everything added, from one walk per tree. */
  class Union {
    const extents: ExtentSet

    constructor ()
      ensures fresh(extents) && extents.Valid() && extents.byDev == map[]
    {
      extents := new ExtentSet();
    }

    /** One tree. */
    method Add(listing: Listing) returns (ok: bool, size: TreeSize)
      requires extents.Valid()
      modifies extents
      ensures extents.Valid()
      ensures var w := WalkedTrees(Start({}, EMPTY), [listing]);
              && ok == w.ok && extents.byDev == AddedAll(old(extents.byDev), w.pieces)
              && size == if ok then w.size.(uniqueAllocated := |PieceBytes(w.pieces)|) else EMPTY
    {
      ok, size := AddAll([listing]);
    }

    /** Several trees as one item. */
    method AddAll(trees: seq<Listing>) returns (ok: bool, size: TreeSize)
      requires extents.Valid()
      modifies extents
      ensures extents.Valid()
      ensures var w := WalkedTrees(Start({}, EMPTY), trees);
              && ok == w.ok && extents.byDev == AddedAll(old(extents.byDev), w.pieces)
              && size == if ok then w.size.(uniqueAllocated := |PieceBytes(w.pieces)|) else EMPTY
    {
      var own := new ExtentSet();
      ghost var sets := [own, extents];
      assert own in sets && extents in sets;
      ok, size := WalkAll(trees, [own, extents]);
      if !ok {
        return false, EMPTY;
      }
      AddsUnion(map[], WalkedTrees(Start({}, EMPTY), trees).pieces);
      var total := own.Total();
      size := size.(uniqueAllocated := total);
    }

    method UniqueAllocated() returns (total: int)
      requires extents.Valid()
      modifies extents
      ensures extents.Valid() && total == |Bytes(old(extents.byDev))| && Bytes(extents.byDev) == Bytes(old(extents.byDev))
    {
      total := extents.Total();
    }
  }

  // ---- Each inode once ----

  lemma {:induction false} TreeCountsInodes(w: Walked, listing: Listing)
    requires w.size.files == |w.seen|
    ensures WalkedTree(w, listing).size.files == |WalkedTree(w, listing).seen|
    decreases |listing|
  {
    if listing != [] && w.ok {
      TreeCountsInodes(Visited(w, listing[0]), listing[1..]);
    }
  }

  /** Whatever fails, the number of files a call reports is the number of different inodes it met. */
  lemma {:induction false} CallCountsInodes(w: Walked, trees: seq<Listing>)
    requires w.size.files == |w.seen|
    ensures WalkedTrees(w, trees).size.files == |WalkedTrees(w, trees).seen|
    decreases |trees|
  {
    hide WalkedTree;
    if trees != [] && w.ok {
      TreeCountsInodes(w, trees[0]);
      CallCountsInodes(WalkedTree(w, trees[0]), trees[1..]);
    }
  }

  // ---- What a call counts ----

  /** The visits of some trees, one tree after the other. */
  function AllVisits(trees: seq<Listing>): Listing {
    if trees == [] then [] else trees[0] + AllVisits(trees[1..])
  }

  lemma {:induction false} WalkInTurn(w: Walked, a: Listing, b: Listing)
    requires w.ok && Walkable(a)
    ensures WalkedTree(w, a).ok && WalkedTree(w, a + b) == WalkedTree(WalkedTree(w, a), b)
    decreases |a|
  {
    if a == [] {
      assert a + b == b;
    } else {
      assert (a + b)[1..] == a[1..] + b;
      WalkInTurn(Visited(w, a[0]), a[1..], b);
    }
  }

  lemma {:induction false} TreesInTurn(w: Walked, trees: seq<Listing>)
    requires w.ok && forall t :: t in trees ==> Walkable(t)
    ensures WalkedTrees(w, trees) == WalkedTree(w, AllVisits(trees))
    decreases |trees|
  {
    hide WalkedTree;
    if trees == [] {
      WalkNothing(w);
    } else {
      WalkInTurn(w, trees[0], AllVisits(trees[1..]));
      TreesInTurn(WalkedTree(w, trees[0]), trees[1..]);
    }
  }

  lemma WalkNothing(w: Walked)
    ensures WalkedTree(w, []) == w
  {
  }

  /** The visit is to a regular file, and no visit before it was to the same inode. */
  ghost predicate MetFirst(visits: Listing, i: nat)
    requires i < |visits|
  {
    visits[i].Regular? && forall j :: 0 <= j < i && visits[j].Regular? ==> visits[j].key != visits[i].key
  }

  /** The visit could not be looked at: an entry or its information is unreadable, for any reason but
      that it is gone by now. */
  ghost predicate Unreadable(v: Visit) {
    v.EntryError? || v.NoStat? || v == InfoError(false)
  }

  /** The figures of the first `n` visits: files, sizes and blocks of 512 bytes of each inode once, and
      one error for whatever could not be read, opened or mapped. */
  ghost function Figures(visits: Listing, n: nat): TreeSize
    requires n <= |visits|
  {
    if n == 0 then TreeSize(0, 0, 0, 0, 0)
    else
      var before, v := Figures(visits, n - 1), visits[n - 1];
      if MetFirst(visits, n - 1) then
        TreeSize(before.files + 1, before.errs + (if v.openErr then 1 else WalkFrom(v.file, 0).errs),
                 before.logical + v.file.size, before.blocks + 512 * v.blocks, before.uniqueAllocated)
      else if Unreadable(v) then before.(errs := before.errs + 1)
      else before
  }

  lemma {:induction false} VisitsCount(visits: Listing, n: nat)
    requires Walkable(visits) && n <= |visits|
    ensures var w := WalkedTree(Start({}, EMPTY), visits[..n]);
            && w.ok && w.size == Figures(visits, n)
            && w.seen == set i | 0 <= i < n && visits[i].Regular? :: visits[i].key
  {
    hide WalkedTree, FilePieces;
    if n == 0 {
      WalkNothing(Start({}, EMPTY));
      assert visits[..0] == [];
    } else {
      VisitsCount(visits, n - 1);
      var w := WalkedTree(Start({}, EMPTY), visits[..n - 1]);
      assert visits[..n] == visits[..n - 1] + [visits[n - 1]];
      WalkInTurn(Start({}, EMPTY), visits[..n - 1], [visits[n - 1]]);
      OneVisit(w, visits[n - 1]);
      assert visits[n - 1] in visits;
      assert MetFirst(visits, n - 1) <==> visits[n - 1].Regular? && visits[n - 1].key !in w.seen;
    }
  }

  lemma OneVisit(w: Walked, v: Visit)
    requires w.ok
    ensures WalkedTree(w, [v]) == Visited(w, v)
  {
    assert [v][1..] == [];
  }

  /** What a call reports besides the unique bytes is a recount of its visits. */
  lemma CallCounts(trees: seq<Listing>)
    requires forall t :: t in trees ==> Walkable(t)
    ensures WalkedTrees(Start({}, EMPTY), trees).size == Figures(AllVisits(trees), |AllVisits(trees)|)
  {
    hide WalkedTree, WalkedTrees;
    TreesInTurn(Start({}, EMPTY), trees);
    AllWalk(trees);
    var visits := AllVisits(trees);
    VisitsCount(visits, |visits|);
    assert visits[..|visits|] == visits;
  }

  lemma {:induction false} AllWalk(trees: seq<Listing>)
    requires forall t :: t in trees ==> Walkable(t)
    ensures Walkable(AllVisits(trees))
  {
    if trees != [] {
      AllWalk(trees[1..]);
      assert trees[0] in trees;
      forall v | v in AllVisits(trees) ensures !v.RootError? {
        assert v in trees[0] || v in AllVisits(trees[1..]);
      }
    }
  }

  // ---- What a call measures ----

  /** Where every inode lies on its device. */
  type Layout = FileKey -> File

  /** The root can be walked. */
  ghost predicate Walkable(listing: Listing) {
    forall v :: v in listing ==> !v.RootError?
  }

  /** Names of the same inode name the same file. */
  ghost predicate OnDisk(listing: Listing, disk: Layout) {
    forall v :: v in listing && v.Regular? ==> v.file == disk(v.key)
  }

  ghost predicate AllOnDisk(trees: seq<Listing>, disk: Layout) {
    forall t :: t in trees ==> Walkable(t) && OnDisk(t, disk)
  }

  ghost function FileBytes(key: FileKey, disk: Layout): set<(int, int)> {
    PieceBytes(FilePieces(disk(key), key.dev))
  }

  /** The bytes of some inodes, each once. */
  ghost function BytesOfKeys(keys: set<FileKey>, disk: Layout): set<(int, int)> {
    set k, q | k in keys && q in FileBytes(k, disk) :: q
  }

  ghost function KeysOf(listing: Listing): set<FileKey> {
    set v | v in listing && v.Regular? :: v.key
  }

  /** Whether the first name of an inode in a tree opens; None when the tree has no name of it. */
  function FirstName(listing: Listing, key: FileKey): (opens: Option<bool>)
    ensures opens.Some? <==> key in KeysOf(listing)
  {
    if listing == [] then None
    else
      var v := listing[0];
      assert KeysOf(listing) == KeysOf([v]) + KeysOf(listing[1..]);
      if v.Regular? && v.key == key then Some(!v.openErr) else FirstName(listing[1..], key)
  }

  /** The same over several trees, one after the other. */
  function FirstOf(trees: seq<Listing>, key: FileKey): Option<bool> {
    if trees == [] then None
    else if FirstName(trees[0], key).Some? then FirstName(trees[0], key)
    else FirstOf(trees[1..], key)
  }

  ghost function OpenedIn(listing: Listing): set<FileKey> {
    set k | k in KeysOf(listing) && FirstName(listing, k) == Some(true)
  }

  /** The inodes whose first name in these trees opens. */
  ghost function Opened(trees: seq<Listing>): (keys: set<FileKey>)
    ensures forall k :: k in keys <==> FirstOf(trees, k) == Some(true)
  {
    if trees == [] then {}
    else OpenedIn(trees[0]) + (Opened(trees[1..]) - KeysOf(trees[0]))
  }

  lemma BytesOfBoth(a: set<FileKey>, b: set<FileKey>, disk: Layout)
    ensures BytesOfKeys(a + b, disk) == BytesOfKeys(a, disk) + BytesOfKeys(b, disk)
  {
  }

  lemma BytesOfOne(key: FileKey, disk: Layout)
    ensures BytesOfKeys({key}, disk) == FileBytes(key, disk)
  {
  }

  /** A walk adds the bytes of the inodes not met before whose first name opens. */
  lemma {:induction false} TreeAdds(w: Walked, listing: Listing, disk: Layout)
    requires w.ok && Walkable(listing) && OnDisk(listing, disk)
    ensures var w' := WalkedTree(w, listing);
            && w'.ok && w'.seen == w.seen + KeysOf(listing)
            && PieceBytes(w'.pieces) == PieceBytes(w.pieces) + BytesOfKeys(OpenedIn(listing) - w.seen, disk)
    decreases |listing|
  {
    hide FilePieces, FileBytes, PieceBytes, BytesOfKeys, Visited;
    if listing == [] {
      NoKeys(disk);
      assert OpenedIn(listing) - w.seen == {};
    } else {
      var v, rest := listing[0], listing[1..];
      var here := if v.Regular? && v.key !in w.seen && !v.openErr then {v.key} else {};
      VisitAdds(w, v, here, disk);
      var next := Visited(w, v);
      TreeAdds(next, rest, disk);
      assert KeysOf(listing) == KeysOf([v]) + KeysOf(rest);
      assert OpenedIn(listing) - w.seen == here + (OpenedIn(rest) - next.seen);
      BytesOfBoth(here, OpenedIn(rest) - next.seen, disk);
    }
  }

  lemma NoKeys(disk: Layout)
    ensures BytesOfKeys({}, disk) == {}
  {
  }

  lemma VisitAdds(w: Walked, v: Visit, here: set<FileKey>, disk: Layout)
    requires w.ok && !v.RootError? && (v.Regular? ==> v.file == disk(v.key))
    requires here == if v.Regular? && v.key !in w.seen && !v.openErr then {v.key} else {}
    ensures Visited(w, v).ok && Visited(w, v).seen == w.seen + KeysOf([v])
    ensures PieceBytes(Visited(w, v).pieces) == PieceBytes(w.pieces) + BytesOfKeys(here, disk)
  {
    hide FilePieces, PieceBytes, BytesOfKeys;
    NoKeys(disk);
    if here != {} {
      PieceBytesAppend(w.pieces, FilePieces(v.file, v.key.dev));
      BytesOfOne(v.key, disk);
    }
  }

  lemma {:induction false} CallAdds(w: Walked, trees: seq<Listing>, disk: Layout)
    requires w.ok && AllOnDisk(trees, disk)
    ensures var w' := WalkedTrees(w, trees);
            w'.ok && PieceBytes(w'.pieces) == PieceBytes(w.pieces) + BytesOfKeys(Opened(trees) - w.seen, disk)
    decreases |trees|
  {
    hide WalkedTree, PieceBytes, BytesOfKeys, OpenedIn, Walkable, OnDisk;
    if trees == [] {
      NoKeys(disk);
      assert Opened(trees) - w.seen == {};
    } else {
      var next := WalkedTree(w, trees[0]);
      TreeAdds(w, trees[0], disk);
      CallAdds(next, trees[1..], disk);
      var here, later := OpenedIn(trees[0]) - w.seen, Opened(trees[1..]) - next.seen;
      assert Opened(trees) - w.seen == here + later;
      BytesOfBoth(here, later, disk);
    }
  }

  /** What one call over some trees adds. */
  function OwnPieces(trees: seq<Listing>): seq<Piece> {
    WalkedTrees(Start({}, EMPTY), trees).pieces
  }

  /** One call measures the bytes of the inodes whose first name opens, each byte once. */
  lemma CallMeasures(trees: seq<Listing>, disk: Layout)
    requires AllOnDisk(trees, disk)
    ensures WalkedTrees(Start({}, EMPTY), trees).ok
    ensures PieceBytes(OwnPieces(trees)) == BytesOfKeys(Opened(trees), disk)
  {
    hide WalkedTrees, BytesOfKeys;
    CallAdds(Start({}, EMPTY), trees, disk);
    assert Opened(trees) - {} == Opened(trees);
  }

  // ---- What a union measures ----

  function Flatten(groups: seq<seq<Listing>>): seq<Listing> {
    if groups == [] then [] else Flatten(groups[..|groups| - 1]) + groups[|groups| - 1]
  }

  /** A union after one `AddAll` per group, in the given order. */
  function UnionAfter(groups: seq<seq<Listing>>): DeviceMap {
    if groups == [] then map[] else AddedAll(UnionAfter(groups[..|groups| - 1]), OwnPieces(groups[|groups| - 1]))
  }

  /** The inodes whose first name in some group opens. */
  ghost function OpenedInSome(groups: seq<seq<Listing>>): set<FileKey> {
    set g, k | g in groups && k in Opened(g) :: k
  }

  lemma NoBytes(disk: Layout)
    ensures Bytes(map[]) == {} == BytesOfKeys({}, disk)
  {
  }

  lemma {:induction false} FlattenMembers(groups: seq<seq<Listing>>, t: Listing)
    ensures t in Flatten(groups) <==> exists g :: g in groups && t in g
  {
    if groups != [] {
      var n := |groups| - 1;
      FlattenMembers(groups[..n], t);
      assert groups == groups[..n] + [groups[n]];
    }
  }

  lemma GroupOnDisk(groups: seq<seq<Listing>>, g: seq<Listing>, disk: Layout)
    requires AllOnDisk(Flatten(groups), disk) && g in groups
    ensures AllOnDisk(g, disk)
  {
    forall t | t in g ensures Walkable(t) && OnDisk(t, disk) {
      FlattenMembers(groups, t);
    }
  }

  lemma {:induction false} UnionMeasures(groups: seq<seq<Listing>>, disk: Layout)
    requires AllOnDisk(Flatten(groups), disk)
    ensures Bytes(UnionAfter(groups)) == BytesOfKeys(OpenedInSome(groups), disk)
  {
    hide WalkedTrees, AddedAll, BytesOfKeys, OwnPieces, Opened, Walkable, OnDisk, PieceBytes;
    if groups == [] {
      NoBytes(disk);
      assert OpenedInSome(groups) == {};
    } else {
      var n := |groups| - 1;
      GroupOnDisk(groups, groups[n], disk);
      assert AllOnDisk(Flatten(groups[..n]), disk);
      UnionMeasures(groups[..n], disk);
      CallMeasures(groups[n], disk);
      AddsUnion(UnionAfter(groups[..n]), OwnPieces(groups[n]));
      assert groups == groups[..n] + [groups[n]];
      assert OpenedInSome(groups) == OpenedInSome(groups[..n]) + Opened(groups[n]);
      BytesOfBoth(OpenedInSome(groups[..n]), Opened(groups[n]), disk);
    }
  }

  // ---- When grouping matters ----

  /** The union of the groups has the figure of one call over `trees`. */
  ghost predicate SameFigure(groups: seq<seq<Listing>>, trees: seq<Listing>) {
    |Bytes(UnionAfter(groups))| == |PieceBytes(OwnPieces(trees))|
  }

  lemma {:induction false} FirstOfBoth(a: seq<Listing>, b: seq<Listing>, key: FileKey)
    ensures FirstOf(a + b, key) == if FirstOf(a, key).Some? then FirstOf(a, key) else FirstOf(b, key)
    decreases |a|
  {
    hide FirstName;
    if a == [] {
      assert a + b == b;
    } else {
      assert (a + b)[1..] == a[1..] + b;
      FirstOfBoth(a[1..], b, key);
    }
  }

  lemma {:induction false} OpenedFirstOpensSomewhere(groups: seq<seq<Listing>>)
    ensures Opened(Flatten(groups)) <= OpenedInSome(groups)
  {
    hide Opened;
    if groups != [] {
      var n := |groups| - 1;
      OpenedFirstOpensSomewhere(groups[..n]);
      assert groups == groups[..n] + [groups[n]];
      forall k | k in Opened(Flatten(groups)) ensures k in OpenedInSome(groups) {
        FirstOfBoth(Flatten(groups[..n]), groups[n], k);
        if FirstOf(Flatten(groups[..n]), k).Some? {
          assert k in OpenedInSome(groups[..n]);
        } else {
          assert k in Opened(groups[n]);
        }
      }
    }
  }

  /** The inodes one call misses and a union counts: the first name in all fails, the first name in
      some later group opens. */
  ghost function Missed(groups: seq<seq<Listing>>): set<FileKey> {
    OpenedInSome(groups) - Opened(Flatten(groups))
  }

  /** On a given disk, a union has the figure of one call over its trees in their order exactly when
      every byte of a missed inode belongs to an inode that is not missed. */
  lemma GroupingMattersIff(groups: seq<seq<Listing>>, disk: Layout)
    requires AllOnDisk(Flatten(groups), disk)
    ensures SameFigure(groups, Flatten(groups)) <==>
            BytesOfKeys(Missed(groups), disk) <= BytesOfKeys(Opened(Flatten(groups)), disk)
  {
    hide WalkedTrees, AddedAll, BytesOfKeys, Opened, OpenedInSome, AllOnDisk, UnionAfter, OwnPieces, PieceBytes;
    var one, missed := Opened(Flatten(groups)), Missed(groups);
    CallMeasures(Flatten(groups), disk);
    UnionMeasures(groups, disk);
    OpenedFirstOpensSomewhere(groups);
    assert OpenedInSome(groups) == one + missed;
    BytesOfBoth(one, missed, disk);
    var counted, more := BytesOfKeys(one, disk), BytesOfKeys(missed, disk);
    if more <= counted {
      assert counted + more == counted;
    } else {
      SubsetSize(counted, counted + more);
    }
  }

  lemma SubsetSize<T>(a: set<T>, b: set<T>)
    requires a < b
    ensures |a| < |b|
  {
    assert |b - a| > 0;
    assert b == a + (b - a);
  }

  /** The same visits with every inode laid out as `disk` says. */
  function Laid(listing: Listing, disk: Layout): (laid: Listing)
    ensures |laid| == |listing|
  {
    seq(|listing|, i requires 0 <= i < |listing| =>
      var v := listing[i]; if v.Regular? then v.(file := disk(v.key)) else v)
  }

  function LaidTrees(trees: seq<Listing>, disk: Layout): (laid: seq<Listing>)
    ensures |laid| == |trees|
  {
    seq(|trees|, i requires 0 <= i < |trees| => Laid(trees[i], disk))
  }

  function LaidGroups(groups: seq<seq<Listing>>, disk: Layout): (laid: seq<seq<Listing>>)
    ensures |laid| == |groups|
  {
    seq(|groups|, i requires 0 <= i < |groups| => LaidTrees(groups[i], disk))
  }

  lemma {:induction false} LaidNames(listing: Listing, disk: Layout, key: FileKey)
    ensures FirstName(Laid(listing, disk), key) == FirstName(listing, key)
    ensures OnDisk(Laid(listing, disk), disk)
    ensures Walkable(listing) ==> Walkable(Laid(listing, disk))
  {
    if listing != [] {
      LaidNames(listing[1..], disk, key);
      assert Laid(listing, disk)[1..] == Laid(listing[1..], disk);
    }
  }

  lemma {:induction false} LaidFirst(trees: seq<Listing>, disk: Layout, key: FileKey)
    ensures FirstOf(LaidTrees(trees, disk), key) == FirstOf(trees, key)
  {
    hide FirstName, Laid;
    if trees != [] {
      LaidNames(trees[0], disk, key);
      LaidFirst(trees[1..], disk, key);
      assert LaidTrees(trees, disk)[1..] == LaidTrees(trees[1..], disk);
    }
  }

  ghost predicate AllWalkable(trees: seq<Listing>) {
    forall t :: t in trees ==> Walkable(t)
  }

  lemma LaidOnDisk(trees: seq<Listing>, disk: Layout)
    requires AllWalkable(trees)
    ensures AllOnDisk(LaidTrees(trees, disk), disk)
    ensures Opened(LaidTrees(trees, disk)) == Opened(trees)
  {
    hide Laid, FirstOf, FirstName, Walkable, OnDisk;
    forall t | t in LaidTrees(trees, disk) ensures Walkable(t) && OnDisk(t, disk) {
      var i :| 0 <= i < |trees| && LaidTrees(trees, disk)[i] == t;
      assert trees[i] in trees;
      LaidNames(trees[i], disk, FileKey(0, 0));
    }
    forall k ensures FirstOf(LaidTrees(trees, disk), k) == FirstOf(trees, k) {
      LaidFirst(trees, disk, k);
    }
  }

  lemma {:induction false} LaidFlatten(groups: seq<seq<Listing>>, disk: Layout)
    ensures Flatten(LaidGroups(groups, disk)) == LaidTrees(Flatten(groups), disk)
  {
    hide Laid;
    if groups != [] {
      var n := |groups| - 1;
      LaidFlatten(groups[..n], disk);
      assert LaidGroups(groups, disk)[..n] == LaidGroups(groups[..n], disk);
    }
  }

  lemma LaidOpenedInSome(groups: seq<seq<Listing>>, disk: Layout)
    ensures OpenedInSome(LaidGroups(groups, disk)) == OpenedInSome(groups)
  {
    hide LaidTrees, FirstOf;
    var laid := LaidGroups(groups, disk);
    forall k ensures k in OpenedInSome(laid) <==> k in OpenedInSome(groups) {
      if k in OpenedInSome(laid) {
        var i :| 0 <= i < |laid| && k in Opened(laid[i]);
        LaidFirst(groups[i], disk, k);
        assert groups[i] in groups && k in Opened(groups[i]);
      }
      if k in OpenedInSome(groups) {
        var i :| 0 <= i < |groups| && k in Opened(groups[i]);
        LaidFirst(groups[i], disk, k);
        assert laid[i] in laid && k in Opened(laid[i]);
      }
    }
  }

  lemma FigureInLayout(groups: seq<seq<Listing>>, trees: seq<Listing>, disk: Layout)
    requires AllWalkable(Flatten(groups)) && AllWalkable(trees)
    ensures SameFigure(LaidGroups(groups, disk), LaidTrees(trees, disk)) <==>
            |BytesOfKeys(OpenedInSome(groups), disk)| == |BytesOfKeys(Opened(trees), disk)|
  {
    hide LaidGroups, LaidTrees, BytesOfKeys, Opened, OpenedInSome, AllOnDisk, UnionAfter, OwnPieces, PieceBytes, AllWalkable;
    LaidFlatten(groups, disk);
    LaidOnDisk(Flatten(groups), disk);
    LaidOnDisk(trees, disk);
    LaidOpenedInSome(groups, disk);
    UnionMeasures(LaidGroups(groups, disk), disk);
    CallMeasures(LaidTrees(trees, disk), disk);
  }

  // ---- A layout that shows a difference ----

  const ONE_BYTE := File(1, false, 1, (off: int, max: int) => Query(false, 1, 0), (off: int) => NoMoreData)

  const NO_BYTES := ONE_BYTE.(size := 0)

  /** One inode holds one byte, all others nothing. */
  function OnlyOne(key: FileKey): Layout {
    (k: FileKey) => if k == key then ONE_BYTE else NO_BYTES
  }

  lemma OneBytePieces(dev: int)
    ensures FilePieces(ONE_BYTE, dev) == [Piece(dev, 0, 1)] && FilePieces(NO_BYTES, dev) == []
  {
    assert WalkFrom(ONE_BYTE, 1) == Walk([], 0);
    WalkTurn(ONE_BYTE, 0);
    assert WalkFrom(ONE_BYTE, 0).stretches == [Stretch(0, 0, 1)] + [];
    assert WalkFrom(NO_BYTES, 0).stretches == [];
  }

  lemma OneByteFigure(key: FileKey, keys: set<FileKey>)
    ensures |BytesOfKeys(keys, OnlyOne(key))| == if key in keys then 1 else 0
  {
    hide FilePieces, PieceBytes;
    var disk := OnlyOne(key);
    PieceSize(Piece(key.dev, 0, 1));
    forall k ensures k != key ==> FileBytes(k, disk) == {} {
      OneBytePieces(k.dev);
      NoPiecesNoBytes();
    }
    OneBytePieces(key.dev);
    assert FileBytes(key, disk) == PieceBytes([Piece(key.dev, 0, 1)]);
    assert BytesOfKeys(keys, disk) == if key in keys then FileBytes(key, disk) else {};
  }

  lemma NoPiecesNoBytes()
    ensures PieceBytes([]) == {}
  {
  }

  lemma FigureTells(groups: seq<seq<Listing>>, trees: seq<Listing>, key: FileKey)
    requires AllWalkable(Flatten(groups)) && AllWalkable(trees)
    ensures SameFigure(LaidGroups(groups, OnlyOne(key)), LaidTrees(trees, OnlyOne(key))) <==>
            (key in OpenedInSome(groups) <==> key in Opened(trees))
  {
    hide BytesOfKeys, Opened, OpenedInSome, SameFigure, LaidGroups, LaidTrees;
    FigureInLayout(groups, trees, OnlyOne(key));
    OneByteFigure(key, OpenedInSome(groups));
    OneByteFigure(key, Opened(trees));
  }

  /** The first name of an inode in one call opens if and only if its first name in some group does. */
  ghost predicate OpensAlike(groups: seq<seq<Listing>>, trees: seq<Listing>, key: FileKey) {
    FirstOf(trees, key) == Some(true) <==> exists g :: g in groups && FirstOf(g, key) == Some(true)
  }

  lemma AlikeIff(groups: seq<seq<Listing>>, trees: seq<Listing>, key: FileKey)
    ensures OpensAlike(groups, trees, key) <==> (key in OpenedInSome(groups) <==> key in Opened(trees))
  {
    hide FirstOf;
    if g :| g in groups && FirstOf(g, key) == Some(true) {
      assert key in Opened(g);
    }
  }

  /** Groups and one call have the same figure however the inodes are laid out, exactly when every
      inode opens alike in both. */
  lemma GroupingAgreesIff(groups: seq<seq<Listing>>, trees: seq<Listing>)
    requires AllWalkable(Flatten(groups)) && AllWalkable(trees)
    ensures (forall disk: Layout :: SameFigure(LaidGroups(groups, disk), LaidTrees(trees, disk))) <==>
            (forall k :: OpensAlike(groups, trees, k))
  {
    hide BytesOfKeys, SameFigure, LaidGroups, LaidTrees, FirstOf, OpensAlike, Opened, OpenedInSome;
    if forall disk: Layout :: SameFigure(LaidGroups(groups, disk), LaidTrees(trees, disk)) {
      forall k ensures OpensAlike(groups, trees, k) {
        FigureTells(groups, trees, k);
        AlikeIff(groups, trees, k);
      }
    }
    if forall k :: OpensAlike(groups, trees, k) {
      forall k ensures k in OpenedInSome(groups) <==> k in Opened(trees) {
        AlikeIff(groups, trees, k);
      }
      assert OpenedInSome(groups) == Opened(trees);
      forall disk: Layout ensures SameFigure(LaidGroups(groups, disk), LaidTrees(trees, disk)) {
        FigureInLayout(groups, trees, disk);
      }
    }
  }

  // ---- When grouping never matters ----

  /** Of each inode, the first names in all trees that have one open, or all fail. */
  ghost predicate NamesAgree(trees: seq<Listing>) {
    forall a, b, k :: a in trees && b in trees && FirstName(a, k).Some? && FirstName(b, k).Some? ==>
      FirstName(a, k) == FirstName(b, k)
  }

  ghost predicate SameTrees(a: seq<Listing>, b: seq<Listing>) {
    forall t :: t in a <==> t in b
  }

  /** The first of several trees is one of them. */
  lemma {:induction false} FirstIsSome(trees: seq<Listing>, key: FileKey)
    ensures FirstOf(trees, key).Some? ==> exists t :: t in trees && FirstName(t, key) == FirstOf(trees, key)
    ensures FirstOf(trees, key).None? ==> forall t :: t in trees ==> FirstName(t, key).None?
    decreases |trees|
  {
    hide FirstName;
    if trees != [] {
      FirstIsSome(trees[1..], key);
      assert trees == [trees[0]] + trees[1..];
      if FirstName(trees[0], key).Some? {
        assert trees[0] in trees;
      } else if FirstOf(trees, key).Some? {
        var t :| t in trees[1..] && FirstName(t, key) == FirstOf(trees[1..], key);
        assert t in trees;
      }
    }
  }

  lemma AgreeingFirst(trees: seq<Listing>, all: seq<Listing>, key: FileKey)
    requires NamesAgree(all) && forall t :: t in trees ==> t in all
    ensures FirstOf(trees, key) == Some(true) <==> exists t :: t in trees && FirstName(t, key) == Some(true)
  {
    hide FirstName, FirstOf;
    FirstIsSome(trees, key);
  }

  lemma AgreeingKeys(groups: seq<seq<Listing>>, trees: seq<Listing>)
    requires NamesAgree(trees) && SameTrees(Flatten(groups), trees)
    ensures OpenedInSome(groups) == Opened(trees)
  {
    hide FirstName, FirstOf, NamesAgree;
    forall k ensures k in OpenedInSome(groups) <==> k in Opened(trees) {
      AgreeingFirst(trees, trees, k);
      forall g | g in groups
        ensures k in Opened(g) <==> exists t :: t in g && FirstName(t, k) == Some(true)
        ensures forall t :: t in g ==> t in trees
      {
        forall t | t in g ensures t in trees {
          FlattenMembers(groups, t);
        }
        AgreeingFirst(g, trees, k);
      }
      if k in Opened(trees) {
        var t :| t in trees && FirstName(t, k) == Some(true);
        FlattenMembers(groups, t);
        var g :| g in groups && t in g;
        assert k in Opened(g);
      }
    }
  }

  /** Moving one tree to the front. */
  lemma ToFront(trees: seq<Listing>, j: nat)
    requires j < |trees|
    ensures multiset([trees[j]] + (trees[..j] + trees[j + 1..])) == multiset(trees)
  {
    assert trees == trees[..j] + [trees[j]] + trees[j + 1..];
  }

  lemma SameMembers(a: seq<Listing>, b: seq<Listing>)
    requires multiset(a) == multiset(b)
    ensures SameTrees(a, b)
  {
    forall t ensures t in a <==> t in b {
      assert t in a <==> t in multiset(a);
      assert t in b <==> t in multiset(b);
    }
  }

  /** Some grouping and order of the trees for which the inode counts when it does not in one call
      over them, or the other way round. */
  lemma DifferingGroups(trees: seq<Listing>, j: nat, key: FileKey) returns (groups: seq<seq<Listing>>)
    requires j < |trees| && FirstName(trees[j], key).Some? && FirstName(trees[j], key) != FirstOf(trees, key)
    ensures multiset(Flatten(groups)) == multiset(trees)
    ensures key in OpenedInSome(groups) <==> key !in Opened(trees)
  {
    hide FirstName;
    var c, rest := trees[j], trees[..j] + trees[j + 1..];
    ToFront(trees, j);
    FirstIsSome(trees, key);
    assert trees[j] in trees;
    assert FirstOf([c], key) == FirstName(c, key) == Some(FirstName(c, key).value);
    var first := FirstOf(trees, key).value;
    assert FirstOf(trees, key) == Some(first) && first != FirstName(c, key).value;
    if FirstName(c, key).value {
      groups := [[c], rest];
      assert groups[..1] == [[c]] && groups[..1][..0] == [];
      assert Flatten([[c]]) == [] + [c];
      assert Flatten(groups) == [c] + rest;
      assert [c] in groups && key in Opened([c]);
      assert key in OpenedInSome(groups) && key !in Opened(trees);
    } else {
      groups := [[c] + rest];
      assert groups[..0] == [];
      assert Flatten(groups) == [] + ([c] + rest);
      FirstOfBoth([c], rest, key);
      assert FirstOf(trees, key) == Some(true) && FirstOf([c] + rest, key) == Some(false);
      assert key !in OpenedInSome(groups);
    }
  }

  /** Every grouping of some trees, in every order and every layout, has the figure of one call over
      them, exactly when the trees agree on which inodes open. Forgetting hard links between calls
      makes no difference then: a link skipped in one call adds bytes the union already has. */
  lemma GroupingNeverMattersIff(trees: seq<Listing>)
    requires AllWalkable(trees)
    ensures (forall groups, disk: Layout :: multiset(Flatten(groups)) == multiset(trees) ==>
               SameFigure(LaidGroups(groups, disk), LaidTrees(trees, disk)))
            <==> NamesAgree(trees)
  {
    hide FirstName, FirstOf, SameFigure, LaidGroups, LaidTrees, OpenedInSome, Opened, Flatten;
    if NamesAgree(trees) {
      forall groups, disk: Layout | multiset(Flatten(groups)) == multiset(trees)
        ensures SameFigure(LaidGroups(groups, disk), LaidTrees(trees, disk))
      {
        SameMembers(Flatten(groups), trees);
        AgreeingKeys(groups, trees);
        FigureInLayout(groups, trees, disk);
      }
    } else {
      var a, b, k :| a in trees && b in trees && FirstName(a, k).Some? && FirstName(b, k).Some?
                     && FirstName(a, k) != FirstName(b, k);
      var c := if FirstName(a, k) == FirstOf(trees, k) then b else a;
      var j :| 0 <= j < |trees| && trees[j] == c;
      var groups := DifferingGroups(trees, j, k);
      SameMembers(Flatten(groups), trees);
      FigureTells(groups, trees, k);
      assert !SameFigure(LaidGroups(groups, OnlyOne(k)), LaidTrees(trees, OnlyOne(k)));
    }
  }

  /** Every regular file opens under every name. */
  ghost predicate Clean(listing: Listing) {
    Walkable(listing) && forall v :: v in listing && v.Regular? ==> !v.openErr
  }

  lemma {:induction false} CleanOpens(listing: Listing, key: FileKey)
    requires Clean(listing)
    ensures FirstName(listing, key).Some? ==> FirstName(listing, key) == Some(true)
  {
    if listing != [] {
      CleanOpens(listing[1..], key);
    }
  }

  /** In particular any grouping of cleanly walked trees, in any order and with any repeats, gives
      the figure of one call over all of them. */
  lemma GroupingDoesNotMatter(groups: seq<seq<Listing>>, trees: seq<Listing>, disk: Layout)
    requires SameTrees(Flatten(groups), trees)
    requires forall t :: t in trees ==> Clean(t) && OnDisk(t, disk)
    ensures WalkedTrees(Start({}, EMPTY), trees).ok && SameFigure(groups, trees)
  {
    hide FirstName, WalkedTrees, UnionAfter, OwnPieces, PieceBytes, BytesOfKeys, Opened, OpenedInSome, Flatten;
    forall a, b, k | a in trees && b in trees && FirstName(a, k).Some? && FirstName(b, k).Some?
      ensures FirstName(a, k) == FirstName(b, k)
    {
      CleanOpens(a, k);
      CleanOpens(b, k);
    }
    AgreeingKeys(groups, trees);
    assert AllOnDisk(trees, disk) && AllOnDisk(Flatten(groups), disk);
    CallMeasures(trees, disk);
    UnionMeasures(groups, disk);
  }

  /** One call over cleanly walked trees measures the bytes of every inode, each byte once. */
  lemma CleanCall(trees: seq<Listing>, disk: Layout)
    requires forall t :: t in trees ==> Clean(t) && OnDisk(t, disk)
    ensures WalkedTrees(Start({}, EMPTY), trees).ok
    ensures PieceBytes(OwnPieces(trees)) == BytesOfKeys(set t, k | t in trees && k in KeysOf(t) :: k, disk)
  {
    hide FirstName, WalkedTrees, OwnPieces, PieceBytes, BytesOfKeys, FirstOf;
    CallMeasures(trees, disk);
    var keys := set t, k | t in trees && k in KeysOf(t) :: k;
    forall k ensures k in Opened(trees) <==> k in keys {
      FirstIsSome(trees, k);
      if k in keys {
        var t :| t in trees && k in KeysOf(t);
        assert FirstName(t, k).Some?;
      }
      if FirstOf(trees, k).Some? {
        var t :| t in trees && FirstName(t, k) == FirstOf(trees, k);
        CleanOpens(t, k);
      }
    }
    assert Opened(trees) == keys;
  }

  // ---- Between the parts and their sum ----

  ghost function SumOfFigures(groups: seq<seq<Listing>>): int {
    if groups == [] then 0
    else SumOfFigures(groups[..|groups| - 1]) + |PieceBytes(OwnPieces(groups[|groups| - 1]))|
  }

  /** The union is at least the figure of each item in it and at most the sum of them all. */
  lemma {:induction false} UnionBetween(groups: seq<seq<Listing>>, k: nat)
    ensures |Bytes(UnionAfter(groups))| <= SumOfFigures(groups)
    ensures k < |groups| ==> |PieceBytes(OwnPieces(groups[k]))| <= |Bytes(UnionAfter(groups))|
  {
    hide WalkedTrees, AddedAll, PieceBytes;
    if groups == [] {
      NoBytes(OnlyOne(FileKey(0, 0)));
    } else {
      var n := |groups| - 1;
      var before, own := Bytes(UnionAfter(groups[..n])), PieceBytes(OwnPieces(groups[n]));
      AddsUnion(UnionAfter(groups[..n]), OwnPieces(groups[n]));
      UnionSize(before, own);
      SizeGrows(own, before + own);
      SizeGrows(before, before + own);
      UnionBetween(groups[..n], k);
      assert k < n ==> groups[..n][k] == groups[k];
    }
  }

  // ---- Why the walks must be clean ----

  lemma FewTrees(w: Walked, a: Listing, b: Listing)
    requires w.ok && WalkedTree(w, a).ok
    ensures WalkedTrees(w, [a]) == WalkedTree(w, a)
    ensures WalkedTrees(w, [a, b]) == WalkedTree(WalkedTree(w, a), b)
  {
    assert [a, b][1..] == [b] && |[a][1..]| == 0;
    var w1 := WalkedTree(w, a);
    assert |[b][1..]| == 0 && WalkedTrees(w1, [b]) == WalkedTree(w1, b);
  }

  /** With a hard link that cannot be opened grouping matters: one call meets the unreadable name
      first and skips the other, separate calls count the file. */
  lemma OpenErrorsBreakGrouping(key: FileKey, file: File, blocks: int)
    ensures var bad, good := [Regular(key, file, blocks, true)], [Regular(key, file, blocks, false)];
            && PieceBytes(OwnPieces([bad, good])) == {}
            && Bytes(UnionAfter([[bad], [good]])) == PieceBytes(FilePieces(file, key.dev))
  {
    hide WalkedTrees, WalkedTree;
    var bad: Listing, good: Listing := [Regular(key, file, blocks, true)], [Regular(key, file, blocks, false)];
    var w := Start({}, EMPTY);
    OneVisit(w, bad[0]);
    OneVisit(w, good[0]);
    OneVisit(Visited(w, bad[0]), good[0]);
    FewTrees(w, bad, good);
    FewTrees(w, good, bad);
    assert OwnPieces([bad]) == [] && OwnPieces([bad, good]) == [];
    assert OwnPieces([good]) == [] + FilePieces(file, key.dev);
    var groups := [[bad], [good]];
    assert groups[..1] == [[bad]] && |[[bad]][..0]| == 0;
    assert UnionAfter([[bad]]) == map[];
    NoBytes(OnlyOne(key));
    AddsUnion(map[], OwnPieces([good]));
  }
}
