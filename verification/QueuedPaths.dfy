/** When the moves a run replays cannot touch one another: what the playbook table and the way rows
    are queued give, and what is left to ask of the queued directories. */
module QueuedPaths {
  import opened Options
  import opened FileSystem
  import opened Relocation
  import opened RelocationSafety
  import opened RelocQueue
  import opened PendingRuns
  import opened PendingSafety

  // ---- Rows made by queueing ----

  /** A request as deferred queueing makes it under the configuration of `m`. */
  predicate QueuedUnder(m: Mover, q: Request) {
    && m.cfg.destRoot != "" && q.destRoot == m.cfg.destRoot
    && PlaybookFor(m.playbooks, q.target).Some?
    && q.assetId == PlaybookFor(m.playbooks, q.target).value.assetId
  }

  /** What `EnqueueDeferred` inserts is such a request. */
  lemma DeferredIsQueuedUnder(m: Mover, target: Path, gateReason: string, now: int)
    requires m.cfg.destRoot != "" && StructuralRefusal(m, Action(OpRelocate, target, "")).None?
    ensures QueuedUnder(m, Request(now, target, PlaybookFor(m.playbooks, target).value.assetId,
                                   m.cfg.destRoot, m.cfg.destVolumeUUID, gateReason))
  {
  }

  ghost predicate AllQueuedUnder(m: Mover, t: Table) {
    forall i :: 0 <= i < |t| ==> QueuedUnder(m, t[i].request)
  }

  /** From an empty table, if every row is queued under one configuration, every row stays so and
      there is one pending row per target, whatever marks and resolutions come in between. */
  lemma {:induction false} QueueStaysUnder(m: Mover, t: Table, calls: seq<Call>)
    requires AllQueuedUnder(m, t) && OnePendingPerTarget(t)
    requires forall c :: c in calls && c.CallEnqueue? ==> QueuedUnder(m, c.q)
    ensures AllQueuedUnder(m, AfterAll(t, calls)) && OnePendingPerTarget(AfterAll(t, calls))
    decreases |calls|
  {
    hide QueuedUnder;
    if calls != [] {
      CallKeeps(t, calls[0]);
      assert calls[0] in calls;
      QueueStaysUnder(m, After(t, calls[0]), calls[1..]);
    }
  }

  // ---- Paths ----

  predicate Plain(name: string) {
    name != "" && '/' !in name
  }

  lemma Clash(p: string, q: string, n: nat)
    requires StartsWith(p, q) && n < |q|
    ensures p[n] == q[n]
  {
    assert p[..|q|][n] == q[n];
  }

  lemma PrefixThrough(p: string, q: string, r: string)
    requires StartsWith(p, q) && StartsWith(q, r)
    ensures StartsWith(p, r)
  {
    assert p[..|q|][..|r|] == p[..|r|];
  }

  function AsDirectory(p: Path): string {
    if p == "/" then p else p + "/"
  }

  lemma JoinStarts(root: Path, name: string)
    requires root != "" && Plain(name)
    ensures Join(root, name) == AsDirectory(root) + name && StartsWith(Join(root, name), AsDirectory(root))
    ensures Join(root, name) != root && Join(root, name) != "/"
  {
  }

  lemma InsideBelow(p: Path, root: Path, name: string)
    requires root != "" && Plain(name) && (p == Join(root, name) || Inside(p, Join(root, name)))
    ensures p == root || Inside(p, root)
  {
    var d := Join(root, name);
    JoinStarts(root, name);
    if p != d {
      PrefixThrough(d + "/", d, AsDirectory(root));
      PrefixThrough(p, d + "/", AsDirectory(root));
    }
  }

  /** A directory that reaches past the root into the name needs a slash there. */
  lemma SlashInName(root: Path, name: string, p: Path)
    requires Inside(AsDirectory(root) + name, p) && |AsDirectory(p)| > |AsDirectory(root)|
    ensures '/' in name
  {
    var d, n := AsDirectory(root) + name, |AsDirectory(p)| - 1;
    Clash(d, AsDirectory(p), n);
    assert d[n] == name[n - |AsDirectory(root)|];
  }

  lemma AboveBelow(p: Path, root: Path, name: string)
    requires root != "" && Plain(name) && Inside(Join(root, name), p)
    ensures p == root || Inside(root, p)
  {
    var d, base, dir := Join(root, name), AsDirectory(root), AsDirectory(p);
    JoinStarts(root, name);
    if |dir| > |base| {
      SlashInName(root, name, p);
    } else {
      assert base[..|dir|] == d[..|dir|] == dir;
      BaseStarts(root, p);
    }
  }

  /** What is apart from a directory is apart from what lies right below it. */
  lemma BelowIsApart(p: Path, root: Path, name: string)
    requires Apart(p, root) && root != "" && Plain(name)
    ensures Apart(p, Join(root, name))
  {
    if p == Join(root, name) || Inside(p, Join(root, name)) {
      InsideBelow(p, root, name);
    }
    if Inside(Join(root, name), p) {
      AboveBelow(p, root, name);
    }
  }

  lemma BaseStarts(root: Path, p: Path)
    requires root != "" && StartsWith(AsDirectory(root), AsDirectory(p))
    ensures p == root || Inside(root, p)
  {
    var base, dir := AsDirectory(root), AsDirectory(p);
    if |dir| == |base| {
      assert base == dir;
      assert root != "/" ==> root == base[..|base| - 1];
      assert p != "/" ==> p == dir[..|dir| - 1];
    } else if root != "/" {
      assert root[..|dir|] == base[..|dir|];
    }
  }

  /** Two names in one directory are apart. */
  lemma SiblingsAreApart(root: Path, a: string, b: string)
    requires Plain(a) && Plain(b) && a != b
    ensures Apart(Join(root, a), Join(root, b))
  {
    NotInside(root, a, b);
    NotInside(root, b, a);
  }

  lemma NotInside(root: Path, a: string, b: string)
    requires Plain(a) && Plain(b) && a != b
    ensures Join(root, a) != Join(root, b) && !Inside(Join(root, a), Join(root, b))
  {
    assert Join(root, a)[|AsDirectory(root)|..] == a && Join(root, b)[|AsDirectory(root)|..] == b;
    if Inside(Join(root, a), Join(root, b)) {
      SlashInLonger(root, a, b);
    }
  }

  lemma SlashInLonger(root: Path, a: string, b: string)
    requires b != "" && Inside(Join(root, a), Join(root, b))
    ensures '/' in a
  {
    var d, e := Join(root, a), Join(root, b);
    Clash(d, e + "/", |e|);
    assert d[|e|] == a[|b|];
  }

  // ---- Separate entries ----

  /** Different assets have different names, each a single path component. */
  predicate DistinctAssets(playbooks: seq<Playbook>) {
    && (forall pb :: pb in playbooks ==> Plain(pb.assetId))
    && (forall pb, pc :: pb in playbooks && pc in playbooks && pb.path != pc.path ==> pb.assetId != pc.assetId)
  }

  function Sources(e: QueueEntry): set<Path> {
    {e.row.request.target, Bak(e.row.request.target)}
  }

  /** No queued directory or backup lies inside that of another entry, or shares a path with the
      destination root. */
  ghost predicate SourcesApart(root: Path, listed: seq<QueueEntry>) {
    && (forall k, p :: 0 <= k < |listed| && p in Sources(listed[k]) ==> Apart(p, root))
    && (forall j, k :: 0 <= j < |listed| && 0 <= k < |listed| && j != k ==> PairApart(listed[j], listed[k]))
  }

  predicate PairApart(e: QueueEntry, f: QueueEntry) {
    forall p, q :: p in Sources(e) && q in Sources(f) ==> Apart(p, q)
  }

  lemma {:induction false} PlaybookIsListed(playbooks: seq<Playbook>, target: Path)
    requires PlaybookFor(playbooks, target).Some?
    ensures PlaybookFor(playbooks, target).value in playbooks && PlaybookFor(playbooks, target).value.path == target
  {
    if !(playbooks[0].path != "" && playbooks[0].path == target) {
      PlaybookIsListed(playbooks[1..], target);
    }
  }

  lemma PairIsApart(m: Mover, e: QueueEntry, f: QueueEntry)
    requires DistinctAssets(m.playbooks) && QueuedUnder(m, e.row.request) && QueuedUnder(m, f.row.request)
    requires e.row.request.target != f.row.request.target
    requires forall p :: p in Sources(e) || p in Sources(f) ==> Apart(p, m.cfg.destRoot)
    requires PairApart(e, f)
    ensures FootprintsApart(e, f)
  {
    hide Apart, Join, Bak, PlaybookFor;
    var root, a, b := m.cfg.destRoot, e.row.request.assetId, f.row.request.assetId;
    PlaybookIsListed(m.playbooks, e.row.request.target);
    PlaybookIsListed(m.playbooks, f.row.request.target);
    SiblingsAreApart(root, a, b);
    forall p, q | p in Footprint(e) && q in Footprint(f) ensures Apart(p, q) {
      if p in Sources(e) && q !in Sources(f) {
        BelowIsApart(p, root, b);
      } else if p !in Sources(e) && q in Sources(f) {
        BelowIsApart(q, root, a);
        ApartBack(q, p);
      }
    }
  }

  lemma ApartBack(p: Path, q: Path)
    requires Apart(p, q)
    ensures Apart(q, p)
  {
  }

  /** Two listed entries are two rows, for different targets. */
  lemma ListedDiffer(t: Table, listed: seq<QueueEntry>, j: nat, k: nat)
    requires OnePendingPerTarget(t) && IsPendingList(t, listed) && j < |listed| && k < |listed| && j != k
    ensures listed[j].id != listed[k].id && listed[j].row.request.target != listed[k].row.request.target
  {
    var x, y := listed[j].id - 1, listed[k].id - 1;
    assert if j < k then listed[j].id != listed[k].id else listed[k].id != listed[j].id;
    assert if x < y then t[x].request.target != t[y].request.target else t[y].request.target != t[x].request.target;
  }

  lemma ListedIsQueued(m: Mover, t: Table, listed: seq<QueueEntry>, k: nat)
    requires AllQueuedUnder(m, t) && IsPendingList(t, listed) && k < |listed|
    ensures QueuedUnder(m, listed[k].row.request)
  {
    hide QueuedUnder;
    assert QueuedUnder(m, t[listed[k].id - 1].request);
  }

  /** The entries a run lists are separate: one pending row per target, rows queued under the one
      configuration and a playbook with distinct asset names give it, once no queued directory lies
      inside another or meets the destination root. */
  lemma ListedIsSeparate(m: Mover, t: Table, listed: seq<QueueEntry>)
    requires OnePendingPerTarget(t) && AllQueuedUnder(m, t) && IsPendingList(t, listed)
    requires DistinctAssets(m.playbooks) && SourcesApart(m.cfg.destRoot, listed)
    ensures Separate(listed)
  {
    hide QueuedUnder, DistinctAssets, FootprintsApart, PairApart, Apart, OnePendingPerTarget, IsPendingList, AllQueuedUnder;
    forall k | 0 <= k < |listed| ensures Disjoint(ActionOf(listed[k])) {
      ListedIsQueued(m, t, listed, k);
      DestIsElsewhere(m, listed[k]);
    }
    forall j, k | 0 <= j < |listed| && 0 <= k < |listed| && j != k
      ensures listed[j].id != listed[k].id && FootprintsApart(listed[j], listed[k])
    {
      ListedDiffer(t, listed, j, k);
      ListedIsQueued(m, t, listed, j);
      ListedIsQueued(m, t, listed, k);
      PairIsApart(m, listed[j], listed[k]);
    }
  }

  lemma DestIsElsewhere(m: Mover, e: QueueEntry)
    requires QueuedUnder(m, e.row.request) && DistinctAssets(m.playbooks)
    requires forall p :: p in Sources(e) ==> Apart(p, m.cfg.destRoot)
    ensures Disjoint(ActionOf(e))
  {
    hide Join, Bak, PlaybookFor;
    var target := e.row.request.target;
    PlaybookIsListed(m.playbooks, target);
    assert target in Sources(e) && Bak(target) in Sources(e);
    BelowIsApart(target, m.cfg.destRoot, e.row.request.assetId);
    BelowIsApart(Bak(target), m.cfg.destRoot, e.row.request.assetId);
  }

  /** The verdict on every entry a run reaches, for a queue made by deferred queueing. */
  lemma QueueRunVerdict(m: Mover, t: Table, listed: seq<QueueEntry>, answers: seq<EntryAnswers>, budget: int,
                        st: Snapshot, n: nat, k: nat)
    requires OnePendingPerTarget(t) && AllQueuedUnder(m, t) && IsPendingList(t, listed)
    requires DistinctAssets(m.playbooks) && SourcesApart(m.cfg.destRoot, listed)
    requires k < n <= |listed| && n <= |answers|
    ensures var end, id := StandingAt(m, listed, answers, budget, t, st, n), listed[k].id;
            && 1 <= id <= |t| && |end.table| == |t| && RowVerdict(t[id - 1], end.table[id - 1], end.results[k])
            && DataVerdict(listed[k], st, end.disk, end.results[k])
            && forall i, j :: CrashPoint(|end.states|, end.writes, i, j) ==>
                 Agrees(listed[k], t, st, TableAt(t, end.writes, j), DiskAt(st, end.states, i))
  {
    hide StandingAt, RowVerdict, DataVerdict, Separate, AllQueuedUnder, DistinctAssets, SourcesApart, Agrees;
    ListedIsSeparate(m, t, listed);
    RunVerdict(m, listed, answers, budget, t, st, n, k);
    var end := StandingAt(m, listed, answers, budget, t, st, n);
    forall i: nat, j: nat | CrashPoint(|end.states|, end.writes, i, j)
      ensures Agrees(listed[k], t, st, TableAt(t, end.writes, j), DiskAt(st, end.states, i))
    {
      MarkBeforeMove(m, listed, answers, budget, t, st, n, k, i, j);
    }
  }
}
