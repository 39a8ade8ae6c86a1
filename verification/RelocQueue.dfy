/** The durable table of deferred relocations. Rows are never deleted and ids count up from 1, so
    the row with id n is the n-th row ever inserted. Every call is one atomic statement sequence. */
module RelocQueue {
  import opened Options
  import opened Sorting
  import FileSystem

  datatype Status = Queued | Blocked | Applied | Cancelled

  datatype Request = Request(
    queuedAt: int, target: string, assetId: string, destRoot: string, destVolumeUUID: string, gateReason: string)

  datatype Row = Row(
    request: Request, status: Status, blockedReason: string,
    attempts: nat, lastAttemptAt: int, resolvedAt: int, freed: int)

  type Table = seq<Row>

  datatype Resolution = Resolution(status: Status, blockedReason: string, freed: int, resolvedAt: int)

  datatype QueueEntry = QueueEntry(id: nat, row: Row)

  predicate Pending(r: Row) {
    r.status == Queued || r.status == Blocked
  }

  predicate PendingId(t: Table, id: nat) {
    1 <= id <= |t| && Pending(t[id - 1])
  }

  predicate PendingFor(r: Row, target: string) {
    Pending(r) && r.request.target == target
  }

  /** The lowest id of a pending row for `target`. */
  function FirstPending(t: Table, target: string): Option<nat> {
    if t == [] then None
    else
      match FirstPending(t[..|t| - 1], target)
      case Some(id) => Some(id)
      case None => if PendingFor(t[|t| - 1], target) then Some(|t|) else None
  }

  function NewRow(q: Request): Row {
    Row(q, Queued, "", 0, 0, 0, 0)
  }

  function Enqueued(t: Table, q: Request): (Table, nat) {
    match FirstPending(t, q.target)
    case Some(id) => (t, id)
    case None => (t + [NewRow(q)], |t| + 1)
  }

  /** Phase 1 of an apply; None is the refusal on a row that is not pending. */
  function Marked(t: Table, id: nat, at: int): Option<Table> {
    if PendingId(t, id) then
      Some(t[id - 1 := t[id - 1].(attempts := t[id - 1].attempts + 1, lastAttemptAt := at)])
    else None
  }

  /** Phase 2 of an apply; None is the refusal of an illegal status or of a row that is not pending. */
  function Resolved(t: Table, id: nat, r: Resolution): Option<Table> {
    if r.status == Queued || !PendingId(t, id) then None
    else
      Some(t[id - 1 := t[id - 1].(status := r.status, blockedReason := r.blockedReason,
                                  resolvedAt := if r.status == Blocked then 0 else r.resolvedAt,
                                  freed := r.freed)])
  }

  // ---- The listing ----

  predicate Earlier(a: QueueEntry, b: QueueEntry) {
    a.row.request.queuedAt < b.row.request.queuedAt ||
    (a.row.request.queuedAt == b.row.request.queuedAt && a.id <= b.id)
  }

  /** `out` lists every pending row once, oldest first, lower id first among equals. */
  ghost predicate IsPendingList(t: Table, out: seq<QueueEntry>) {
    && (forall k :: 0 <= k < |out| ==> PendingId(t, out[k].id) && out[k].row == t[out[k].id - 1])
    && (forall id: nat :: PendingId(t, id) ==> QueueEntry(id, t[id - 1]) in out)
    && (forall j, k :: 0 <= j < k < |out| ==> out[j].id != out[k].id && Earlier(out[j], out[k]))
  }

  /** `found` lists the pending rows with ids up to `n`, in order. */
  ghost predicate ListedUpTo(t: Table, found: seq<QueueEntry>, n: nat) {
    && (forall k :: 0 <= k < |found| ==> PendingId(t, found[k].id) && found[k].id <= n && found[k].row == t[found[k].id - 1])
    && (forall id: nat :: PendingId(t, id) && id <= n ==> QueueEntry(id, t[id - 1]) in found)
    && (forall j, k :: 0 <= j < k < |found| ==> found[j].id < found[k].id)
  }

  lemma SortedIsListed(t: Table, found: seq<QueueEntry>, out: seq<QueueEntry>)
    requires ListedUpTo(t, found, |t|) && multiset(found) == multiset(out) && Sorted(out, Earlier)
    ensures IsPendingList(t, out)
  {
    PermutationMembers(out, found);
    assert Distinct(found);
    DistinctPermutes(found, out);
    forall k | 0 <= k < |out| ensures PendingId(t, out[k].id) && out[k].row == t[out[k].id - 1] {
      assert out[k] in found;
    }
    forall j, k | 0 <= j < k < |out| ensures out[j].id != out[k].id && Earlier(out[j], out[k]) {
      assert out[j] in found && out[k] in found;
    }
  }

  /** One write to the table: the rows it left, and how many states the disk had passed through by
      then. */
  datatype Write = Write(after: nat, rows: Table)

  /** The table behind the store's methods. `writes` orders what is written to it among the states
      of the disk, so that the two together say what a crash at any point would have left. */
  class RelocationQueue {
    var rows: Table
    ghost const disk: FileSystem.Disk
    ghost var writes: seq<Write>

    constructor (ghost beside: FileSystem.Disk)
      ensures rows == [] && disk == beside && writes == []
    {
      rows := [];
      disk := beside;
      writes := [];
    }

    method Enqueue(q: Request) returns (id: nat)
      modifies this
      ensures (rows, id) == Enqueued(old(rows), q)
      ensures writes == old(writes) + if |rows| > old(|rows|) then [Write(|disk.trail|, rows)] else []
    {
      for i := 0 to |rows|
        invariant rows == old(rows) && writes == old(writes)
        invariant FirstPending(rows[..i], q.target) == None
      {
        assert rows[..i + 1][..i] == rows[..i];
        if PendingFor(rows[i], q.target) {
          FirstPendingPrefix(rows, i + 1, q.target);
          assert writes + [] == writes;
          return i + 1;
        }
      }
      assert rows[..|rows|] == rows;
      rows := rows + [NewRow(q)];
      writes := writes + [Write(|disk.trail|, rows)];
      id := |rows|;
    }

    method MarkAttempt(id: nat, at: int) returns (ok: bool)
      modifies this
      ensures ok == Marked(old(rows), id, at).Some?
      ensures rows == if ok then Marked(old(rows), id, at).value else old(rows)
      ensures writes == old(writes) + if ok then [Write(|disk.trail|, rows)] else []
    {
      if id == 0 || id > |rows| || !Pending(rows[id - 1]) {
        assert writes + [] == writes;
        return false;
      }
      var r := rows[id - 1];
      rows := rows[id - 1 := r.(lastAttemptAt := at, attempts := r.attempts + 1)];
      writes := writes + [Write(|disk.trail|, rows)];
      return true;
    }

    method Resolve(id: nat, r: Resolution) returns (ok: bool)
      modifies this
      ensures ok == Resolved(old(rows), id, r).Some?
      ensures rows == if ok then Resolved(old(rows), id, r).value else old(rows)
      ensures writes == old(writes) + if ok then [Write(|disk.trail|, rows)] else []
    {
      if r.status == Queued {
        assert writes + [] == writes;
        return false;
      }
      var resolvedAt := 0;
      if r.status != Blocked {
        resolvedAt := r.resolvedAt;
      }
      if id == 0 || id > |rows| || !Pending(rows[id - 1]) {
        assert writes + [] == writes;
        return false;
      }
      rows := rows[id - 1 := rows[id - 1].(status := r.status, blockedReason := r.blockedReason,
                                           resolvedAt := resolvedAt, freed := r.freed)];
      writes := writes + [Write(|disk.trail|, rows)];
      return true;
    }

    method ListPending() returns (out: seq<QueueEntry>)
      ensures IsPendingList(rows, out)
    {
      var found: seq<QueueEntry> := [];
      for i := 0 to |rows|
        invariant ListedUpTo(rows, found, i)
      {
        if Pending(rows[i]) {
          found := found + [QueueEntry(i + 1, rows[i])];
        }
      }
      out := Sort(found, Earlier);
      SortedIsListed(rows, found, out);
    }
  }

  lemma FirstPendingPrefix(t: Table, n: nat, target: string)
    requires n <= |t| && FirstPending(t[..n], target).Some?
    ensures FirstPending(t, target) == FirstPending(t[..n], target)
  {
    if n < |t| {
      assert t[..|t| - 1][..n] == t[..n];
      FirstPendingPrefix(t[..|t| - 1], n, target);
    } else {
      assert t[..n] == t;
    }
  }

  // ---- What any sequence of calls keeps ----

  datatype Call = CallEnqueue(q: Request) | CallMark(id: nat, at: int) | CallResolve(id: nat, r: Resolution)

  function After(t: Table, c: Call): Table {
    match c
    case CallEnqueue(q) => Enqueued(t, q).0
    case CallMark(id, at) => (match Marked(t, id, at) case Some(t') => t' case None => t)
    case CallResolve(id, r) => (match Resolved(t, id, r) case Some(t') => t' case None => t)
  }

  function AfterAll(t: Table, calls: seq<Call>): Table
    decreases |calls|
  {
    if calls == [] then t else AfterAll(After(t, calls[0]), calls[1..])
  }

  ghost predicate OnePendingPerTarget(t: Table) {
    forall i, j :: 0 <= i < j < |t| && Pending(t[i]) && Pending(t[j]) ==> t[i].request.target != t[j].request.target
  }

  lemma {:induction false} FirstPendingSound(t: Table, target: string)
    ensures match FirstPending(t, target)
            case Some(id) => 1 <= id <= |t| && PendingFor(t[id - 1], target)
                             && forall k :: 0 <= k < id - 1 ==> !PendingFor(t[k], target)
            case None => forall k :: 0 <= k < |t| ==> !PendingFor(t[k], target)
  {
    if t != [] {
      FirstPendingSound(t[..|t| - 1], target);
    }
  }

  /** A bare insert keeps one pending row per target exactly when the look-up before it finds none;
      two processes that both look before either inserts leave two. */
  lemma InsertKeepsOnePendingIff(t: Table, q: Request)
    requires OnePendingPerTarget(t)
    ensures OnePendingPerTarget(t + [NewRow(q)]) <==> FirstPending(t, q.target).None?
  {
    FirstPendingSound(t, q.target);
    var t' := t + [NewRow(q)];
    if FirstPending(t, q.target).Some? {
      var i := FirstPending(t, q.target).value - 1;
      assert Pending(t'[i]) && Pending(t'[|t|]) && t'[i].request.target == t'[|t|].request.target;
    }
  }

  /** How one row may change from one table to a later one. */
  predicate RowEvolves(a: Row, b: Row) {
    && b.request == a.request
    && (!Pending(a) ==> b == a)
    && (b.status == Queued ==> a.status == Queued)
    && a.attempts <= b.attempts
  }

  ghost predicate Evolves(t: Table, t': Table) {
    |t| <= |t'| && forall i :: 0 <= i < |t| ==> RowEvolves(t[i], t'[i])
  }

  lemma CallKeeps(t: Table, c: Call)
    requires OnePendingPerTarget(t)
    ensures OnePendingPerTarget(After(t, c)) && Evolves(t, After(t, c))
  {
    if c.CallEnqueue? {
      InsertKeepsOnePendingIff(t, c.q);
    }
  }

  /** From any calls in any order: one pending row per target, terminal rows frozen, no row back
      to `queued`, requests fixed, attempts never lowered. */
  lemma {:induction false} RunsKeep(t: Table, calls: seq<Call>)
    requires OnePendingPerTarget(t)
    ensures OnePendingPerTarget(AfterAll(t, calls)) && Evolves(t, AfterAll(t, calls))
    decreases |calls|
  {
    if calls != [] {
      var t1 := After(t, calls[0]);
      CallKeeps(t, calls[0]);
      RunsKeep(t1, calls[1..]);
      var t2 := AfterAll(t1, calls[1..]);
      forall i | 0 <= i < |t| ensures RowEvolves(t[i], t2[i]) {
        assert RowEvolves(t[i], t1[i]) && RowEvolves(t1[i], t2[i]);
      }
    }
  }

  /** What each call does to a row that is there: a mark stamps and counts, a resolution writes status,
      reason, time and bytes, both on a pending row only; nothing else touches any column. */
  lemma CallWrites(t: Table, c: Call, i: nat)
    requires i < |t|
    ensures i < |After(t, c)|
    ensures var row := t[i];
            After(t, c)[i] ==
            match c
            case CallEnqueue(_) => row
            case CallMark(id, at) =>
              if id == i + 1 && row.status in {Queued, Blocked} then
                Row(row.request, row.status, row.blockedReason, row.attempts + 1, at, row.resolvedAt, row.freed)
              else row
            case CallResolve(id, r) =>
              if id == i + 1 && row.status in {Queued, Blocked} && r.status != Queued then
                Row(row.request, r.status, r.blockedReason, row.attempts, row.lastAttemptAt,
                    if r.status == Blocked then 0 else r.resolvedAt, r.freed)
              else row
  {
  }

  /** Only enqueueing a target with no pending row adds a row: queued, never attempted, with nothing
      freed. */
  lemma CallAdds(t: Table, c: Call)
    ensures var t' := After(t, c);
            if c.CallEnqueue? && (forall k :: 0 <= k < |t| && t[k].status in {Queued, Blocked} ==> t[k].request.target != c.q.target)
            then |t'| == |t| + 1 && t'[|t|] == Row(c.q, Queued, "", 0, 0, 0, 0)
            else |t'| == |t|
  {
    if c.CallEnqueue? {
      FirstPendingSound(t, c.q.target);
    }
  }

  /** Pending rows are listed by time of queueing, and by id where that is the same. */
  lemma OldestFirst(t: Table, out: seq<QueueEntry>, j: nat, k: nat)
    requires IsPendingList(t, out) && j < k < |out|
    ensures out[j].row.request.queuedAt <= out[k].row.request.queuedAt
    ensures out[j].row.request.queuedAt == out[k].row.request.queuedAt ==> out[j].id < out[k].id
  {
    assert Earlier(out[j], out[k]) && out[j].id != out[k].id;
  }

  /** The marks of row `id` that were made while it was pending. */
  function MarksOf(t: Table, calls: seq<Call>, id: nat): nat
    decreases |calls|
  {
    if calls == [] then 0
    else (if calls[0].CallMark? && calls[0].id == id && PendingId(t, id) then 1 else 0) +
         MarksOf(After(t, calls[0]), calls[1..], id)
  }

  /** The attempts of a row grow by exactly the marks made while it was pending. */
  lemma {:induction false} AttemptsCountMarks(t: Table, calls: seq<Call>, id: nat)
    requires OnePendingPerTarget(t) && 1 <= id <= |t|
    ensures id <= |AfterAll(t, calls)|
    ensures AfterAll(t, calls)[id - 1].attempts == t[id - 1].attempts + MarksOf(t, calls, id)
    decreases |calls|
  {
    if calls != [] {
      CallKeeps(t, calls[0]);
      AttemptsCountMarks(After(t, calls[0]), calls[1..], id);
    }
  }

  /** Asking again for a target that is already pending returns the one pending row and changes
      nothing; asking for any other target inserts one. */
  lemma EnqueueIsIdempotent(t: Table, q: Request)
    requires OnePendingPerTarget(t)
    ensures var (t', id) := Enqueued(t, q);
            && PendingId(t', id) && t'[id - 1].request.target == q.target
            && ((exists k: nat :: PendingId(t, k) && t[k - 1].request.target == q.target) ==>
                  t' == t && forall k: nat :: PendingId(t, k) && t[k - 1].request.target == q.target ==> k == id)
            && (!(exists k: nat :: PendingId(t, k) && t[k - 1].request.target == q.target) ==>
                  t' == t + [NewRow(q)] && id == |t'|)
  {
    FirstPendingSound(t, q.target);
    assert forall k: nat :: PendingId(t, k) && t[k - 1].request.target == q.target ==> PendingFor(t[k - 1], q.target);
    if FirstPending(t, q.target).Some? {
      assert PendingId(t, FirstPending(t, q.target).value);
    }
  }
}
