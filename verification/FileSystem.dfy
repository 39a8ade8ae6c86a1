/** The part of a file system a relocation touches: paths that hold a whole directory tree, a
    symbolic link, or nothing. Every call may fail, and a call that works file by file (a copy, a
    recursive delete) passes through a half-done state that a crash would leave behind. */
module FileSystem {
  import opened Options

  type Path = string

  datatype File = File(name: string, data: string)

  datatype Entry = Tree(files: seq<File>) | Link(to: Path)

  /** What is on disk at one instant; a path outside the domain holds nothing. */
  type Snapshot = map<Path, Entry>

  /** How far a recursive delete gets: the files it has not reached when it is half done, and
      whether it then finishes. */
  datatype Removal = Removal(left: set<File>, done: bool)

  /** What a copy leaves at its destination half way and at its end (None: nothing new). */
  datatype Copying = Copying(halfway: Option<seq<File>>, result: Option<seq<File>>, ok: bool)

  /** The longest chain of links a path lookup follows. */
  const MAX_LINKS: nat := 255

  function TotalBytes(files: seq<File>): nat {
    if files == [] then 0 else |files[0].data| + TotalBytes(files[1..])
  }

  function Survivors(files: seq<File>, left: set<File>): seq<File> {
    if files == [] then []
    else (if files[0] in left then [files[0]] else []) + Survivors(files[1..], left)
  }

  /** File count and total bytes, as a walk that does not follow links sees them. */
  function Size(e: Entry): (nat, nat) {
    match e
    case Tree(files) => (|files|, TotalBytes(files))
    case Link(_) => (0, 0)
  }

  function Measured(st: Snapshot, p: Path, walkOk: bool): Option<(nat, nat)> {
    if walkOk && p in st then Some(Size(st[p])) else None
  }

  /** Where a path leads once links are followed. */
  function Resolve(st: Snapshot, p: Path, fuel: nat): Option<Path>
    decreases fuel
  {
    if p !in st then None
    else if st[p].Tree? then Some(p)
    else if fuel == 0 then None
    else Resolve(st, st[p].to, fuel - 1)
  }

  /** A rename replaces only a link by a link or an empty directory by a directory. */
  predicate Replaceable(moved: Entry, there: Entry) {
    (moved.Tree? && there == Tree([])) || (moved.Link? && there.Link?)
  }

  predicate CanRename(st: Snapshot, from: Path, to: Path) {
    from in st && (to !in st || Replaceable(st[from], st[to]))
  }

  function Renamed(st: Snapshot, from: Path, to: Path): Snapshot
    requires from in st
  {
    st[to := st[from]] - {from}
  }

  /** A plain remove takes a link or an empty directory. */
  predicate CanRemove(st: Snapshot, p: Path) {
    p in st && (st[p].Link? || st[p] == Tree([]))
  }

  function Put(st: Snapshot, p: Path, files: Option<seq<File>>): Snapshot {
    match files
    case None => st
    case Some(fs) => st[p := Tree(fs)]
  }

  function CopySteps(st: Snapshot, dst: Path, how: Copying): seq<Snapshot> {
    [Put(st, dst, how.halfway), Put(Put(st, dst, how.halfway), dst, how.result)]
  }

  function RemoveAllSteps(st: Snapshot, p: Path, how: Removal): seq<Snapshot> {
    if p !in st then []
    else
      (match st[p] case Tree(files) => [st[p := Tree(Survivors(files, how.left))]] case Link(_) => []) +
      (if how.done then [st - {p}] else [])
  }

  /** The last state of a series that starts in `st`. */
  function Last(st: Snapshot, steps: seq<Snapshot>): Snapshot {
    if steps == [] then st else steps[|steps| - 1]
  }

  lemma LastAppend(st: Snapshot, a: seq<Snapshot>, b: seq<Snapshot>)
    ensures Last(st, a + b) == Last(Last(st, a), b)
  {
    if b == [] {
      assert a + b == a;
    }
  }

  lemma TrailAppend(a: seq<Snapshot>, b: seq<Snapshot>, c: seq<Snapshot>)
    ensures (a + b) + c == a + (b + c)
  {
  }

  /** A copy may be cut short or fail with anything at its destination, and touches nothing else. */
  lemma CopyLeaves(st: Snapshot, dst: Path, how: Copying)
    ensures var steps := CopySteps(st, dst, how);
            && |steps| == 2
            && steps[0] == (if how.halfway.Some? then st[dst := Tree(how.halfway.value)] else st)
            && steps[1] == (if how.result.Some? then st[dst := Tree(how.result.value)] else steps[0])
  {
  }

  /** A recursive delete of a directory passes through what it left, and ends there or with nothing. */
  lemma RemovalLeaves(st: Snapshot, p: Path, how: Removal)
    ensures var steps := RemoveAllSteps(st, p, how);
            && (p !in st ==> steps == [])
            && (p in st && st[p].Tree? ==> steps != [] && steps[0] == st[p := Tree(Survivors(st[p].files, how.left))])
            && (p in st ==> (p !in Last(st, steps) <==> how.done))
            && forall q, s :: q != p && s in steps ==> (q in s <==> q in st) && (q in st ==> s[q] == st[q])
  {
  }

  /** What a path resolves to is a directory, and a directory is what it resolves to. */
  lemma {:induction false} ResolveEnds(st: Snapshot, p: Path, fuel: nat)
    ensures Resolve(st, p, fuel).Some? ==> Resolve(st, p, fuel).value in st && st[Resolve(st, p, fuel).value].Tree?
    ensures p in st && st[p].Tree? ==> Resolve(st, p, fuel) == Some(p)
    ensures p in st && st[p].Link? && fuel > 0 ==> Resolve(st, p, fuel) == Resolve(st, st[p].to, fuel - 1)
    decreases fuel
  {
    if p in st && st[p].Link? && fuel > 0 {
      ResolveEnds(st, st[p].to, fuel - 1);
    }
  }

  /** Two states hold the same things everywhere but on `paths`. */
  ghost predicate SameElsewhere(a: Snapshot, b: Snapshot, paths: set<Path>) {
    forall p :: p !in paths ==> (p in a <==> p in b) && (p in a ==> a[p] == b[p])
  }

  /** The mounted file systems. `trail` records every state they passed through, including the
      half-done ones, which is exactly the set of states a crash could have left. */
  class Disk {
    var entries: Snapshot
    ghost var trail: seq<Snapshot>

    constructor (initial: Snapshot)
      ensures entries == initial && trail == []
    {
      entries := initial;
      trail := [];
    }

    /** lstat succeeds: the path holds something and the call itself did not fail. */
    predicate Lstat(p: Path, statErr: bool)
      reads this
    {
      p in entries && !statErr
    }

    method Copy(dst: Path, how: Copying) returns (ok: bool)
      modifies this
      ensures ok == how.ok
      ensures entries == Last(old(entries), CopySteps(old(entries), dst, how))
      ensures trail == old(trail) + CopySteps(old(entries), dst, how)
    {
      entries := Put(entries, dst, how.halfway);
      trail := trail + [entries];
      entries := Put(entries, dst, how.result);
      trail := trail + [entries];
      return how.ok;
    }

    method RemoveAll(p: Path, how: Removal) returns (ok: bool)
      modifies this
      ensures ok == (p !in old(entries) || how.done)
      ensures entries == Last(old(entries), RemoveAllSteps(old(entries), p, how))
      ensures trail == old(trail) + RemoveAllSteps(old(entries), p, how)
    {
      if p !in entries {
        return true;
      }
      ghost var before := entries;
      if entries[p].Tree? {
        entries := entries[p := Tree(Survivors(entries[p].files, how.left))];
        trail := trail + [entries];
      }
      if how.done {
        entries := entries - {p};
        assert entries == before - {p};
        trail := trail + [entries];
      }
      return how.done;
    }

    method Rename(from: Path, to: Path, osOk: bool) returns (ok: bool)
      modifies this
      ensures ok == (osOk && CanRename(old(entries), from, to))
      ensures ok ==> entries == Renamed(old(entries), from, to) && trail == old(trail) + [entries]
      ensures !ok ==> entries == old(entries) && trail == old(trail)
    {
      ok := osOk && CanRename(entries, from, to);
      if ok {
        entries := Renamed(entries, from, to);
        trail := trail + [entries];
      }
    }

    method Symlink(dest: Path, at: Path, osOk: bool) returns (ok: bool)
      modifies this
      ensures ok == (osOk && at !in old(entries))
      ensures ok ==> entries == old(entries)[at := Link(dest)] && trail == old(trail) + [entries]
      ensures !ok ==> entries == old(entries) && trail == old(trail)
    {
      ok := osOk && at !in entries;
      if ok {
        entries := entries[at := Link(dest)];
        trail := trail + [entries];
      }
    }

    method Remove(p: Path, osOk: bool)
      modifies this
      ensures osOk && CanRemove(old(entries), p) ==>
                entries == old(entries) - {p} && trail == old(trail) + [entries]
      ensures !(osOk && CanRemove(old(entries), p)) ==>
                entries == old(entries) && trail == old(trail)
    {
      if osOk && CanRemove(entries, p) {
        entries := entries - {p};
        trail := trail + [entries];
      }
    }
  }
}
