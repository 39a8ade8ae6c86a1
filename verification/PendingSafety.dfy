/** What a whole run over the queue promises: about the budget, about each row, and about the data
    of every entry at every state the disk passes through. */
module PendingSafety {
  import opened Options
  import opened FileSystem
  import opened Relocation
  import opened RelocationSafety
  import opened RelocQueue
  import opened PendingRuns

  function Footprint(e: QueueEntry): set<Path> {
    {e.row.request.target, Bak(e.row.request.target), DestOf(e)}
  }

  /** `p` is a path inside the directory `q`. */
  predicate Inside(p: Path, q: Path) {
    StartsWith(p, if q == "/" then q else q + "/") && p != q
  }

  predicate Apart(p: Path, q: Path) {
    p != q && !Inside(p, q) && !Inside(q, p)
  }

  /** Listed entries are different rows, and no path of one is a path of another or lies inside it. */
  ghost predicate Separate(listed: seq<QueueEntry>) {
    && (forall k :: 0 <= k < |listed| ==> Disjoint(ActionOf(listed[k])))
    && (forall j, k :: 0 <= j < |listed| && 0 <= k < |listed| && j != k ==>
          listed[j].id != listed[k].id && FootprintsApart(listed[j], listed[k]))
  }

  predicate FootprintsApart(e: QueueEntry, f: QueueEntry) {
    forall p, q :: p in Footprint(e) && q in Footprint(f) ==> Apart(p, q)
  }

  lemma ApartShareNothing(e: QueueEntry, f: QueueEntry)
    requires FootprintsApart(e, f)
    ensures Footprint(e) !! Footprint(f)
  {
    forall p | p in Footprint(e) ensures p !in Footprint(f) {
      assert p in Footprint(f) ==> Apart(p, p);
    }
  }

  ghost predicate SameOn(a: Snapshot, b: Snapshot, paths: set<Path>) {
    forall p :: p in paths ==> (p in a <==> p in b) && (p in a ==> a[p] == b[p])
  }

  predicate SameRow(t: Table, t': Table, id: nat) {
    |t| == |t'| && (1 <= id <= |t| ==> t[id - 1] == t'[id - 1])
  }

  // ---- One re-check ----

  /** The row of one re-check, before and after it. */
  ghost predicate RowVerdict(row: Row, row': Row, r: PendingResult) {
    && (r.outcome == OutSkippedBudget ==> row' == row)
    && (row'.status == RelocQueue.Applied && row.status != RelocQueue.Applied ==> r.outcome == OutApplied)
    && (r.attempted ==> row'.attempts == row.attempts + 1)
    && row.attempts <= row'.attempts <= row.attempts + 1
    && (r.attempted && !r.unrecorded ==> row'.status == if r.outcome == OutApplied then RelocQueue.Applied else RelocQueue.Blocked)
  }

  /** Where the data of one entry is after it was re-checked from `st`. */
  ghost predicate DataVerdict(e: QueueEntry, st: Snapshot, end: Snapshot, r: PendingResult) {
    var target, dest := e.row.request.target, DestOf(e);
    && (r.outcome == OutApplied ==>
          r.attempted && target in st && Linked(end, target, dest, st[target]) && Bak(target) !in end)
    && (!r.attempted ==> SameOn(end, st, Footprint(e)))
    && (r.attempted && r.outcome == OutBlocked ==>
          r.failure.Some? && target in st && st[target].Tree? && Ended(r.failure.value, st, end, target, dest))
  }

  /** The data after an attempt that failed with `why`. */
  ghost predicate Ended(why: Failure, st: Snapshot, end: Snapshot, target: Path, dest: Path)
    requires target in st
  {
    if why == StaleBackup then Linked(end, target, dest, st[target]) && Bak(target) in end
    else if why == RestoreFailed then
      && Bak(target) in end && end[Bak(target)] == st[target]
      && (target in end ==> end[target] == Link(dest))
    else target in end && end[target] == st[target]
  }

  /** Writes that change no row but one. */
  ghost predicate WritesOnly(writes: seq<Write>, t: Table, id: nat) {
    forall w :: w in writes ==> |w.rows| == |t| && forall id': nat :: id' != id ==> SameRow(t, w.rows, id')
  }

  /** The table after the first `j` writes. */
  function TableAt(t: Table, writes: seq<Write>, j: nat): Table
    requires j <= |writes|
  {
    if j == 0 then t else writes[j - 1].rows
  }

  /** How the row of a re-check ends, from what it was when the outcome was written. */
  ghost predicate RowConcluded(row: Row, row': Row, status: Status) {
    row'.attempts == row.attempts && row'.status in {row.status, RelocQueue.Cancelled, status}
  }

  /** The end of a re-check writes to its own row, after all its states. */
  lemma ConcludedRow(result: PendingResult, ans: EntryAnswers, t: Table, r: Resolution,
                     states: seq<Snapshot>, before: seq<Write>, charged: nat)
    requires r.status != Queued
    ensures var s, id := Concluded(result, ans, t, r, states, before, charged), result.entry.id;
            && |before| <= |s.writes| && s.writes[..|before|] == before
            && var tail := s.writes[|before|..];
               && WritesOnly(tail, t, id) && s.table == TableAt(t, tail, |tail|)
               && (forall w :: w in tail ==> w.after == |states|)
               && (1 <= id <= |t| ==>
                     && (forall w :: w in tail ==> RowConcluded(t[id - 1], w.rows[id - 1], r.status))
                     && |s.table| == |t| && RowConcluded(t[id - 1], s.table[id - 1], r.status)
                     && (!s.result.unrecorded ==> s.table[id - 1].status == r.status)
                     && (s.result.unrecorded ==> s.table[id - 1].status in {t[id - 1].status, RelocQueue.Cancelled}))
  {
    var s := Concluded(result, ans, t, r, states, before, charged);
    var (t1, cancelled) := Written(t, CancelledElsewhere(t, result.entry.id, ans.cancelBeforeResolve, ans.cancelledAt), |states|);
    var (_, written) := Written(t1, ResolveUnless(t1, result.entry.id, r, ans.resolveErr), |states|);
    assert s.writes[|before|..] == cancelled + written;
  }

  /** A re-check that attempts nothing leaves the disk alone and at most cancels or blocks its row. */
  lemma NoAttempt(m: Mover, e: QueueEntry, ans: EntryAnswers, budget: int, charged: nat, t: Table, st: Snapshot)
    ensures var s := Recheck(m, e, ans, budget, charged, t, st);
            !s.result.attempted ==>
              && s.states == [] && WritesOnly(s.writes, t, e.id) && s.table == TableAt(t, s.writes, |s.writes|)
              && (forall w :: w in s.writes ==> w.after == 0)
              && (s.result.outcome == OutSkippedBudget ==> s.table == t)
              && s.result.outcome != OutApplied
              && (1 <= e.id <= |t| ==>
                    && (forall w :: w in s.writes ==> RowConcluded(t[e.id - 1], w.rows[e.id - 1], RelocQueue.Blocked))
                    && RowConcluded(t[e.id - 1], s.table[e.id - 1], RelocQueue.Blocked))
  {
    hide Relocate, GateBlock, Concluded, PlaybookFor;
    var s := Recheck(m, e, ans, budget, charged, t, st);
    match GateBlock(m, e, ans.gates, st) {
      case Some(why) =>
        ConcludedRow(PendingResult(e, OutBlocked, false, 0, None, false), ans, t, Resolution(RelocQueue.Blocked, why, 0, 0), [], [], charged);
        assert s.writes[0..] == s.writes;
      case None =>
    }
  }

  /** How an attempt ends, before its outcome is written. */
  function RawResult(m: Mover, e: QueueEntry, ans: EntryAnswers, st: Snapshot): PendingResult {
    match Relocate(m, ActionOf(e), ans.os, st).result
    case Failed(why) => PendingResult(e, OutBlocked, true, 0, Some(why), false)
    case Moved(freed) => PendingResult(e, OutApplied, true, freed, None, false)
  }

  function OutcomeOf(r: PendingResult, ans: EntryAnswers): Resolution {
    if r.outcome == OutApplied then Resolution(RelocQueue.Applied, "", r.freed, ans.resolvedAt)
    else Resolution(RelocQueue.Blocked, "apply failed", 0, 0)
  }

  /** A re-check attempts the move exactly when the gates pass, the budget is not spent and the mark
      goes through. The mark is then its first write, before any state of the disk. */
  lemma Attempts(m: Mover, e: QueueEntry, ans: EntryAnswers, budget: int, charged: nat, t: Table, st: Snapshot)
    ensures var s := Recheck(m, e, ans, budget, charged, t, st);
            && (s.result.attempted <==>
                  && GateBlock(m, e, ans.gates, st).None? && (budget >= 0 ==> charged < budget)
                  && !ans.markErr && PendingId(t, e.id) && !ans.cancelBeforeMark)
            && (s.result.attempted ==>
                  var t2 := Marked(t, e.id, ans.markAt).value;
                  var raw := RawResult(m, e, ans, st);
                  s == Concluded(raw, ans, t2, OutcomeOf(raw, ans), Relocate(m, ActionOf(e), ans.os, st).states,
                                 [Write(0, t2)], charged + 1))
  {
    hide Relocate, GateBlock, Concluded, PlaybookFor;
    var (t1, cancelled) := Written(t, CancelledElsewhere(t, e.id, ans.cancelBeforeMark, ans.cancelledAt), 0);
    if !ans.cancelBeforeMark {
      assert t1 == t && cancelled == [];
      if PendingId(t, e.id) {
        assert [] + [Write(0, Marked(t, e.id, ans.markAt).value)] == [Write(0, Marked(t, e.id, ans.markAt).value)];
      }
    }
  }

  lemma MarkOnly(t: Table, id: nat, at: int)
    requires PendingId(t, id)
    ensures Marked(t, id, at).Some?
    ensures var t2 := Marked(t, id, at).value;
            && |t2| == |t| && (forall id': nat :: id' != id ==> SameRow(t, t2, id'))
            && t2[id - 1].attempts == t[id - 1].attempts + 1 && t2[id - 1].status == t[id - 1].status
  {
  }

  /** An attempt writes the mark before any state of the disk, and its outcome after all of them. */
  lemma AttemptWrites(m: Mover, e: QueueEntry, ans: EntryAnswers, budget: int, charged: nat, t: Table, st: Snapshot)
    requires Recheck(m, e, ans, budget, charged, t, st).result.attempted
    ensures PendingId(t, e.id)
    ensures var s, t2 := Recheck(m, e, ans, budget, charged, t, st), Marked(t, e.id, ans.markAt).value;
            var status := OutcomeOf(s.result, ans).status;
            && s.writes != [] && s.writes[0] == Write(0, t2) && s.table == s.writes[|s.writes| - 1].rows
            && WritesOnly(s.writes, t, e.id)
            && (forall k :: 1 <= k < |s.writes| ==>
                  s.writes[k].after == |s.states| && RowConcluded(t2[e.id - 1], s.writes[k].rows[e.id - 1], status))
            && (!s.result.unrecorded ==> s.table[e.id - 1].status == status)
  {
    hide Recheck, Relocate, GateBlock, Concluded, Marked, RowConcluded;
    Attempts(m, e, ans, budget, charged, t, st);
    MarkOnly(t, e.id, ans.markAt);
    var s, t2 := Recheck(m, e, ans, budget, charged, t, st), Marked(t, e.id, ans.markAt).value;
    var raw := RawResult(m, e, ans, st);
    ConcludedRow(raw, ans, t2, OutcomeOf(raw, ans), s.states, [Write(0, t2)], charged + 1);
    var tail := s.writes[1..];
    assert s.writes == [Write(0, t2)] + tail;
    forall k | 1 <= k < |s.writes|
      ensures s.writes[k].after == |s.states| && RowConcluded(t2[e.id - 1], s.writes[k].rows[e.id - 1], OutcomeOf(raw, ans).status)
    {
      assert s.writes[k] == tail[k - 1] && tail[k - 1] in tail;
    }
    forall w | w in s.writes ensures |w.rows| == |t| && forall id': nat :: id' != e.id ==> SameRow(t, w.rows, id') {
      forall id': nat | id' != e.id ensures SameRow(t, w.rows, id') {
        assert SameRow(t, t2, id') && (w in tail ==> SameRow(t2, w.rows, id'));
      }
    }
  }

  /** What one re-check writes: its own row only, ordered among its states, up to the table it leaves. */
  lemma RecheckWrites(m: Mover, e: QueueEntry, ans: EntryAnswers, budget: int, charged: nat, t: Table, st: Snapshot)
    ensures var s := Recheck(m, e, ans, budget, charged, t, st);
            && WritesOnly(s.writes, t, e.id) && s.table == TableAt(t, s.writes, |s.writes|)
            && forall w :: w in s.writes ==> w.after <= |s.states|
  {
    hide Recheck, WritesOnly, RowConcluded, OutcomeOf, Marked;
    NoAttempt(m, e, ans, budget, charged, t, st);
    if Recheck(m, e, ans, budget, charged, t, st).result.attempted {
      AttemptWrites(m, e, ans, budget, charged, t, st);
    }
  }

  lemma RecheckTouches(m: Mover, e: QueueEntry, ans: EntryAnswers, budget: int, charged: nat, t: Table, st: Snapshot)
    ensures var s := Recheck(m, e, ans, budget, charged, t, st);
            && |s.table| == |t| && (forall id: nat :: id != e.id ==> SameRow(t, s.table, id))
            && AllSameElsewhere(s.states, st, Footprint(e))
  {
    hide Recheck, Relocate;
    var s := Recheck(m, e, ans, budget, charged, t, st);
    RecheckWrites(m, e, ans, budget, charged, t, st);
    Attempts(m, e, ans, budget, charged, t, st);
    NoAttempt(m, e, ans, budget, charged, t, st);
    OnlyThreePaths(m, ActionOf(e), ans.os, st);
    if s.writes != [] {
      assert s.writes[|s.writes| - 1] in s.writes;
    }
  }

  lemma RecheckRow(m: Mover, e: QueueEntry, ans: EntryAnswers, budget: int, charged: nat, t: Table, st: Snapshot)
    requires 1 <= e.id <= |t|
    ensures var s := Recheck(m, e, ans, budget, charged, t, st);
            |s.table| == |t| && RowVerdict(t[e.id - 1], s.table[e.id - 1], s.result)
  {
    hide Recheck, Relocate, GateBlock, Concluded, Marked, WritesOnly;
    Attempts(m, e, ans, budget, charged, t, st);
    NoAttempt(m, e, ans, budget, charged, t, st);
    RecheckTouches(m, e, ans, budget, charged, t, st);
    if Recheck(m, e, ans, budget, charged, t, st).result.attempted {
      AttemptWrites(m, e, ans, budget, charged, t, st);
      MarkOnly(t, e.id, ans.markAt);
    }
  }

  lemma RecheckData(m: Mover, e: QueueEntry, ans: EntryAnswers, budget: int, charged: nat, t: Table, st: Snapshot)
    requires Disjoint(ActionOf(e))
    ensures var s := Recheck(m, e, ans, budget, charged, t, st);
            DataVerdict(e, st, Last(st, s.states), s.result)
  {
    hide Recheck, Concluded, Relocate;
    Attempts(m, e, ans, budget, charged, t, st);
    NoAttempt(m, e, ans, budget, charged, t, st);
    if Recheck(m, e, ans, budget, charged, t, st).result.attempted {
      GatesAllowIff(m, e, ans.gates, st);
      Outcomes(m, ActionOf(e), ans.os, st);
    }
  }

  // ---- The whole run ----

  lemma NextStanding(m: Mover, listed: seq<QueueEntry>, answers: seq<EntryAnswers>, budget: int,
                     t: Table, st: Snapshot, k: nat)
    requires k < |listed| && k < |answers|
    ensures var before, after := StandingAt(m, listed, answers, budget, t, st, k), StandingAt(m, listed, answers, budget, t, st, k + 1);
            var s := StepAt(m, listed, answers, budget, before, k);
            && after.table == s.table && after.disk == Last(before.disk, s.states) && after.states == before.states + s.states
            && after.writes == before.writes + Later(s.writes, |before.states|)
  {
    hide Recheck;
  }

  lemma StandingAtStart(m: Mover, listed: seq<QueueEntry>, answers: seq<EntryAnswers>, budget: int, t: Table, st: Snapshot)
    ensures StandingAt(m, listed, answers, budget, t, st, 0) == Standing(0, [], t, st, [], [])
  {
  }

  /** A run that never re-checks `e` between entries `lo` and `hi` leaves its row and its paths
      alone, at every state. */
  lemma {:induction false} LeavesAlone(m: Mover, listed: seq<QueueEntry>, answers: seq<EntryAnswers>, budget: int,
                    t: Table, st: Snapshot, e: QueueEntry, lo: nat, hi: nat)
    requires lo <= hi <= |listed| && hi <= |answers|
    requires forall j :: lo <= j < hi ==> listed[j].id != e.id && FootprintsApart(listed[j], e)
    ensures var a, b := StandingAt(m, listed, answers, budget, t, st, lo), StandingAt(m, listed, answers, budget, t, st, hi);
            && SameRow(a.table, b.table, e.id) && SameOn(b.disk, a.disk, Footprint(e))
            && |a.states| <= |b.states| && b.states[..|a.states|] == a.states
            && forall s :: s in b.states[|a.states|..] ==> SameOn(s, a.disk, Footprint(e))
    decreases hi
  {
    hide Recheck, StandingAt, FootprintsApart;
    if lo < hi {
      LeavesAlone(m, listed, answers, budget, t, st, e, lo, hi - 1);
      NextStanding(m, listed, answers, budget, t, st, hi - 1);
      ApartShareNothing(listed[hi - 1], e);
      var a := StandingAt(m, listed, answers, budget, t, st, lo);
      var b := StandingAt(m, listed, answers, budget, t, st, hi - 1);
      var s := StepAt(m, listed, answers, budget, b, hi - 1);
      RecheckTouches(m, listed[hi - 1], answers[hi - 1], budget, b.charged, b.table, b.disk);
      RowThrough(a.table, b.table, s.table, e.id);
      StatesAlone(b.disk, s.states, a.disk, listed[hi - 1], e);
      var added := (b.states + s.states)[|a.states|..];
      assert added == b.states[|a.states|..] + s.states;
    }
  }

  lemma RowThrough(a: Table, b: Table, c: Table, id: nat)
    requires SameRow(a, b, id) && SameRow(b, c, id)
    ensures SameRow(a, c, id)
  {
  }

  /** States of another entry's re-check, from one that has this entry's paths as in `start`. */
  lemma StatesAlone(st: Snapshot, states: seq<Snapshot>, start: Snapshot, other: QueueEntry, e: QueueEntry)
    requires SameOn(st, start, Footprint(e)) && AllSameElsewhere(states, st, Footprint(other)) && Footprint(other) !! Footprint(e)
    ensures forall s :: s in states ==> SameOn(s, start, Footprint(e))
    ensures SameOn(Last(st, states), start, Footprint(e))
  {
    hide Footprint;
    forall s | s in states ensures SameOn(s, start, Footprint(e)) {
      assert SameElsewhere(s, st, Footprint(other));
    }
    if states != [] {
      assert states[|states| - 1] in states;
    }
  }

  lemma {:induction false} ResultAt(m: Mover, listed: seq<QueueEntry>, answers: seq<EntryAnswers>, budget: int,
                 t: Table, st: Snapshot, k: nat, n: nat)
    requires k < n <= |listed| && n <= |answers|
    ensures StandingAt(m, listed, answers, budget, t, st, n).results[k] ==
            StepAt(m, listed, answers, budget, StandingAt(m, listed, answers, budget, t, st, k), k).result
    decreases n
  {
    hide Recheck;
    if k < n - 1 {
      ResultAt(m, listed, answers, budget, t, st, k, n - 1);
    }
  }

  /** Links and trees at the three paths of an entry decide what is held. */
  lemma DataIsLocal(e: QueueEntry, a: Snapshot, a': Snapshot, b: Snapshot, b': Snapshot, r: PendingResult)
    requires SameOn(a, a', Footprint(e)) && SameOn(b, b', Footprint(e))
    requires DataVerdict(e, a, b, r)
    ensures DataVerdict(e, a', b', r)
  {
    assert e.row.request.target in Footprint(e) && DestOf(e) in Footprint(e) && Bak(e.row.request.target) in Footprint(e);
  }

  /** Every entry the run reached: its row and its data at the end of the whole run follow from its
      own result, whatever happened to the other entries. In particular a row ends `applied` only
      with its target linked to a checked copy, and a row blocked by a failed apply has its data
      where that failure leaves it. */
  lemma RunVerdict(m: Mover, listed: seq<QueueEntry>, answers: seq<EntryAnswers>, budget: int,
                   t: Table, st: Snapshot, n: nat, k: nat)
    requires Separate(listed) && k < n <= |listed| && n <= |answers|
    requires 1 <= listed[k].id <= |t|
    ensures var end, id := StandingAt(m, listed, answers, budget, t, st, n), listed[k].id;
            && end.results[k].entry == listed[k]
            && |end.table| == |t| && RowVerdict(t[id - 1], end.table[id - 1], end.results[k])
            && DataVerdict(listed[k], st, end.disk, end.results[k])
  {
    hide Recheck, StandingAt, RowVerdict, DataVerdict, Disjoint;
    StandingAtStart(m, listed, answers, budget, t, st);
    NextStanding(m, listed, answers, budget, t, st, k);
    var e := listed[k];
    var before := StandingAt(m, listed, answers, budget, t, st, k);
    var after := StandingAt(m, listed, answers, budget, t, st, k + 1);
    var end := StandingAt(m, listed, answers, budget, t, st, n);
    LeavesAlone(m, listed, answers, budget, t, st, e, 0, k);
    LeavesAlone(m, listed, answers, budget, t, st, e, k + 1, n);
    ResultAt(m, listed, answers, budget, t, st, k, n);
    RecheckRow(m, e, answers[k], budget, before.charged, before.table, before.disk);
    RecheckData(m, e, answers[k], budget, before.charged, before.table, before.disk);
    RecheckEntry(m, e, answers[k], budget, before.charged, before.table, before.disk);
    assert SameOn(before.disk, st, Footprint(e));
    assert SameOn(after.disk, end.disk, Footprint(e));
    DataIsLocal(e, before.disk, st, after.disk, end.disk, end.results[k]);
  }

  lemma RecheckEntry(m: Mover, e: QueueEntry, ans: EntryAnswers, budget: int, charged: nat, t: Table, st: Snapshot)
    ensures Recheck(m, e, ans, budget, charged, t, st).result.entry == e
  {
    hide Relocate, GateBlock;
  }

  /** Rows the run does not list keep everything. */
  lemma OtherRowsKept(m: Mover, listed: seq<QueueEntry>, answers: seq<EntryAnswers>, budget: int,
                      t: Table, st: Snapshot, n: nat, id: nat)
    requires n <= |listed| && n <= |answers|
    requires forall j :: 0 <= j < n ==> listed[j].id != id
    ensures SameRow(t, StandingAt(m, listed, answers, budget, t, st, n).table, id)
  {
    hide Recheck;
    if n > 0 {
      OtherRowsKept(m, listed, answers, budget, t, st, n - 1, id);
      var b := StandingAt(m, listed, answers, budget, t, st, n - 1);
      RecheckTouches(m, listed[n - 1], answers[n - 1], budget, b.charged, b.table, b.disk);
      assert SameRow(b.table, StepAt(m, listed, answers, budget, b, n - 1).table, id);
    }
  }

  function Applies(results: seq<PendingResult>): nat {
    if results == [] then 0
    else Applies(results[..|results| - 1]) + (if results[|results| - 1].attempted then 1 else 0)
  }

  lemma RecheckCharges(m: Mover, e: QueueEntry, ans: EntryAnswers, budget: int, charged: nat, t: Table, st: Snapshot)
    requires budget >= 0 ==> charged <= budget
    ensures var s := Recheck(m, e, ans, budget, charged, t, st);
            charged + (if s.result.attempted then 1 else 0) <= s.charged && (budget >= 0 ==> s.charged <= budget)
  {
    hide Relocate, GateBlock;
  }

  /** With a budget of at least zero, relocation is attempted at most that often. */
  lemma {:induction false} BudgetHolds(m: Mover, listed: seq<QueueEntry>, answers: seq<EntryAnswers>, budget: int,
                    t: Table, st: Snapshot, n: nat)
    requires n <= |listed| && n <= |answers|
    ensures var end := StandingAt(m, listed, answers, budget, t, st, n);
            Applies(end.results) <= end.charged && (budget >= 0 ==> end.charged <= budget)
  {
    hide Recheck;
    if n > 0 {
      BudgetHolds(m, listed, answers, budget, t, st, n - 1);
      var b := StandingAt(m, listed, answers, budget, t, st, n - 1);
      RecheckCharges(m, listed[n - 1], answers[n - 1], budget, b.charged, b.table, b.disk);
      var end := StandingAt(m, listed, answers, budget, t, st, n);
      assert end.results[..n - 1] == b.results;
    }
  }

  // ---- What the rows tell ----

  /** What a re-check that saw `ans` and ended with `r` leaves of a row. */
  ghost predicate RowTells(row: Row, row': Row, r: PendingResult, ans: EntryAnswers) {
    var attempts := if r.attempted then row.attempts + 1 else row.attempts;
    var attemptAt := if r.attempted then ans.markAt else row.lastAttemptAt;
    && (r.outcome == OutSkippedBudget ==> row' == row)
    && (r.outcome == OutApplied ==> r.attempted && r.freed == ans.os.freed)
    && (r.outcome == OutApplied && !r.unrecorded ==>
          row' == Row(row.request, RelocQueue.Applied, "", attempts, attemptAt, ans.resolvedAt, r.freed))
    && (r.outcome == OutBlocked && !r.unrecorded ==>
          row'.blockedReason != "" && row' == Row(row.request, RelocQueue.Blocked, row'.blockedReason, attempts, attemptAt, 0, 0))
    && (r.unrecorded ==>
          || row' == row.(attempts := attempts, lastAttemptAt := attemptAt)
          || row' == Row(row.request, RelocQueue.Cancelled, "", attempts, attemptAt, ans.cancelledAt, 0))
  }

  /** The row once the outcome is written or refused. */
  lemma ConcludedTells(result: PendingResult, ans: EntryAnswers, t: Table, r: Resolution,
                       states: seq<Snapshot>, before: seq<Write>, charged: nat)
    requires r.status in {RelocQueue.Applied, RelocQueue.Blocked} && 1 <= result.entry.id <= |t|
    ensures var s, row := Concluded(result, ans, t, r, states, before, charged), t[result.entry.id - 1];
            && |s.table| == |t|
            && var row' := s.table[result.entry.id - 1];
               if s.result.unrecorded then
                 || row' == row
                 || row' == Row(row.request, RelocQueue.Cancelled, "", row.attempts, row.lastAttemptAt, ans.cancelledAt, 0)
               else
                 row' == Row(row.request, r.status, r.blockedReason, row.attempts, row.lastAttemptAt,
                             if r.status == RelocQueue.Blocked then 0 else r.resolvedAt, r.freed)
  {
  }

  /** Every blocked gate names its reason. */
  lemma GateReason(m: Mover, e: QueueEntry, g: GateAnswers, st: Snapshot)
    ensures GateBlock(m, e, g, st).Some? ==>
              var q, why := e.row.request, GateBlock(m, e, g, st).value;
              var pb := PlaybookFor(m.playbooks, q.target);
              why ==
              if q.destRoot != m.cfg.destRoot || q.destVolumeUUID != m.cfg.destVolumeUUID then "destination changed since queued"
              else if pb.None? then "no longer a known playbook asset"
              else if pb.value.class_ != Relocatable then "not relocatable by file move"
              else if q.target !in st || g.sourceStatErr || st[q.target].Link? then "source missing or no longer a real directory"
              else if pb.value.gate == PathGate && g.live then "still in use"
              else if pb.value.gate == ProcessGate && pb.value.stopGate != "" && g.process == Running then "still in use"
              else if pb.value.gate == ProcessGate && pb.value.stopGate != "" && g.process == Unknown then "stop-gate check failed"
              else if !g.guardOk then "destination refused"
              else "destination already exists"
  {
    hide PlaybookFor;
  }

  lemma RecheckTells(m: Mover, e: QueueEntry, ans: EntryAnswers, budget: int, charged: nat, t: Table, st: Snapshot)
    requires 1 <= e.id <= |t|
    ensures var s := Recheck(m, e, ans, budget, charged, t, st);
            |s.table| == |t| && RowTells(t[e.id - 1], s.table[e.id - 1], s.result, ans)
  {
    hide Recheck, Relocate, GateBlock, Concluded;
    Attempts(m, e, ans, budget, charged, t, st);
    if Recheck(m, e, ans, budget, charged, t, st).result.attempted {
      var raw, t2 := RawResult(m, e, ans, st), Marked(t, e.id, ans.markAt).value;
      ConcludedTells(raw, ans, t2, OutcomeOf(raw, ans), Relocate(m, ActionOf(e), ans.os, st).states, [Write(0, t2)], charged + 1);
      FreedIsMeasured(m, ActionOf(e), ans.os, st);
    } else {
      UnattemptedTells(m, e, ans, budget, charged, t, st);
    }
  }

  lemma FreedIsMeasured(m: Mover, a: Action, os: Answers, st: Snapshot)
    ensures Relocate(m, a, os, st).result.Moved? ==> Relocate(m, a, os, st).result == Moved(os.freed)
  {
  }

  lemma UnattemptedTells(m: Mover, e: QueueEntry, ans: EntryAnswers, budget: int, charged: nat, t: Table, st: Snapshot)
    requires 1 <= e.id <= |t| && !Recheck(m, e, ans, budget, charged, t, st).result.attempted
    ensures var s := Recheck(m, e, ans, budget, charged, t, st);
            |s.table| == |t| && RowTells(t[e.id - 1], s.table[e.id - 1], s.result, ans)
  {
    hide Relocate, Concluded, GateBlock, PlaybookFor;
    match GateBlock(m, e, ans.gates, st) {
      case Some(why) =>
        GateReason(m, e, ans.gates, st);
        ConcludedTells(PendingResult(e, OutBlocked, false, 0, None, false), ans, t, Resolution(RelocQueue.Blocked, why, 0, 0), [], [], charged);
      case None =>
    }
  }

  /** At the end of a run the row of every entry it reached tells how that entry ended: an applied one
      carries the freed bytes of its result and the time it was resolved, a blocked one a reason. */
  lemma RunRowTells(m: Mover, listed: seq<QueueEntry>, answers: seq<EntryAnswers>, budget: int,
                    t: Table, st: Snapshot, n: nat, k: nat)
    requires Separate(listed) && k < n <= |listed| && n <= |answers|
    requires 1 <= listed[k].id <= |t|
    ensures var end, id := StandingAt(m, listed, answers, budget, t, st, n), listed[k].id;
            |end.table| == |t| && RowTells(t[id - 1], end.table[id - 1], end.results[k], answers[k])
  {
    hide Recheck, StandingAt, RowTells, Disjoint;
    StandingAtStart(m, listed, answers, budget, t, st);
    NextStanding(m, listed, answers, budget, t, st, k);
    var e, before := listed[k], StandingAt(m, listed, answers, budget, t, st, k);
    LeavesAlone(m, listed, answers, budget, t, st, e, 0, k);
    LeavesAlone(m, listed, answers, budget, t, st, e, k + 1, n);
    ResultAt(m, listed, answers, budget, t, st, k, n);
    RecheckTells(m, e, answers[k], budget, before.charged, before.table, before.disk);
  }

  /** The bytes freed by the applied rows of a table. */
  function FreedInAll(t: Table): int {
    if t == [] then 0
    else FreedInAll(t[..|t| - 1]) + if t[|t| - 1].status == RelocQueue.Applied then t[|t| - 1].freed else 0
  }

  /** The bytes a run reports as freed and recorded. */
  function FreedAndRecorded(results: seq<PendingResult>): int {
    if results == [] then 0
    else
      var r := results[|results| - 1];
      FreedAndRecorded(results[..|results| - 1]) + if r.outcome == OutApplied && !r.unrecorded then r.freed else 0
  }

  lemma {:induction false} OneRowChanges(a: Table, b: Table, id: nat)
    requires |a| == |b| && forall id': nat :: id' != id ==> SameRow(a, b, id')
    ensures FreedInAll(b) - FreedInAll(a) ==
            if 1 <= id <= |a| then
              (if b[id - 1].status == RelocQueue.Applied then b[id - 1].freed else 0) -
              (if a[id - 1].status == RelocQueue.Applied then a[id - 1].freed else 0)
            else 0
  {
    if a != [] {
      var n := |a| - 1;
      forall id': nat | id' != id ensures SameRow(a[..n], b[..n], id') {
        assert SameRow(a, b, id');
      }
      assert n + 1 != id ==> SameRow(a, b, n + 1);
      OneRowChanges(a[..n], b[..n], id);
    }
  }

  lemma RecheckFrees(m: Mover, e: QueueEntry, ans: EntryAnswers, budget: int, charged: nat, t: Table, st: Snapshot)
    ensures var s := Recheck(m, e, ans, budget, charged, t, st);
            FreedInAll(s.table) == FreedInAll(t) + if s.result.outcome == OutApplied && !s.result.unrecorded then s.result.freed else 0
  {
    hide Recheck, Relocate, GateBlock, Concluded, FreedInAll;
    var s := Recheck(m, e, ans, budget, charged, t, st);
    RecheckTouches(m, e, ans, budget, charged, t, st);
    OneRowChanges(t, s.table, e.id);
    NoAttempt(m, e, ans, budget, charged, t, st);
    if 1 <= e.id <= |t| {
      RecheckTells(m, e, ans, budget, charged, t, st);
      if !Pending(t[e.id - 1]) {
        TerminalStays(m, e, ans, budget, charged, t, st);
      }
    } else if s.result.attempted {
      Attempts(m, e, ans, budget, charged, t, st);
    }
  }

  /** A row that is already terminal is not written by a re-check. */
  lemma TerminalStays(m: Mover, e: QueueEntry, ans: EntryAnswers, budget: int, charged: nat, t: Table, st: Snapshot)
    requires 1 <= e.id <= |t| && !Pending(t[e.id - 1])
    ensures Recheck(m, e, ans, budget, charged, t, st).table == t
    ensures var r := Recheck(m, e, ans, budget, charged, t, st).result; r.outcome != OutApplied
  {
    hide Relocate, GateBlock;
  }

  /** The bytes of the applied rows grow by exactly what the run reports as freed and recorded. */
  lemma {:induction false} RunFrees(m: Mover, listed: seq<QueueEntry>, answers: seq<EntryAnswers>, budget: int,
                                    t: Table, st: Snapshot, n: nat)
    requires n <= |listed| && n <= |answers|
    ensures var end := StandingAt(m, listed, answers, budget, t, st, n);
            FreedInAll(end.table) == FreedInAll(t) + FreedAndRecorded(end.results)
  {
    hide Recheck, FreedInAll;
    if n > 0 {
      RunFrees(m, listed, answers, budget, t, st, n - 1);
      var b, end := StandingAt(m, listed, answers, budget, t, st, n - 1), StandingAt(m, listed, answers, budget, t, st, n);
      RecheckFrees(m, listed[n - 1], answers[n - 1], budget, b.charged, b.table, b.disk);
      assert end.results[..n - 1] == b.results;
    }
  }

  // ---- When an apply may happen ----

  /** What has to hold before a queued move is attempted: the destination is the one consented to,
      the asset may still be moved and is a real directory that nothing uses, and nothing is seen at
      the destination. */
  predicate Allowed(m: Mover, e: QueueEntry, g: GateAnswers, st: Snapshot) {
    var q := e.row.request;
    var pb := PlaybookFor(m.playbooks, q.target);
    && q.destRoot == m.cfg.destRoot && q.destVolumeUUID == m.cfg.destVolumeUUID
    && pb.Some? && pb.value.class_ == Relocatable
    && q.target in st && st[q.target].Tree? && !g.sourceStatErr
    && (pb.value.gate == PathGate ==> !g.live)
    && (pb.value.gate == ProcessGate && pb.value.stopGate != "" ==> g.process == Idle)
    && g.guardOk
    && (DestOf(e) in st ==> g.destStatErr)
  }

  lemma GatesAllowIff(m: Mover, e: QueueEntry, g: GateAnswers, st: Snapshot)
    ensures GateBlock(m, e, g, st).None? <==> Allowed(m, e, g, st)
  {
    hide PlaybookFor;
  }

  lemma AttemptNeedsGates(m: Mover, e: QueueEntry, ans: EntryAnswers, budget: int, charged: nat, t: Table, st: Snapshot)
    ensures Recheck(m, e, ans, budget, charged, t, st).result.attempted ==>
              PendingId(t, e.id) && Allowed(m, e, ans.gates, st) && (budget >= 0 ==> charged < budget)
  {
    hide Recheck, Relocate, GateBlock, Allowed, Concluded;
    GatesAllowIff(m, e, ans.gates, st);
    Attempts(m, e, ans, budget, charged, t, st);
  }

  /** A re-check is charged exactly when it was allowed and the budget was not spent, whether or not its
      mark then goes through; past the budget it leaves everything as it was. */
  lemma ChargedIff(m: Mover, e: QueueEntry, ans: EntryAnswers, budget: int, charged: nat, t: Table, st: Snapshot)
    ensures var s, allowed := Recheck(m, e, ans, budget, charged, t, st), Allowed(m, e, ans.gates, st);
            && s.charged == charged + (if allowed && (budget >= 0 ==> charged < budget) then 1 else 0)
            && (s.result.outcome == OutSkippedBudget <==> allowed && 0 <= budget <= charged)
            && (!allowed ==> s.result.outcome == OutBlocked && !s.result.attempted)
  {
    hide Relocate, GateBlock, Allowed;
    GatesAllowIff(m, e, ans.gates, st);
  }

  lemma AllowedIsLocal(m: Mover, e: QueueEntry, g: GateAnswers, a: Snapshot, b: Snapshot)
    requires SameOn(a, b, Footprint(e)) && Allowed(m, e, g, a)
    ensures Allowed(m, e, g, b)
  {
    hide PlaybookFor;
    assert e.row.request.target in Footprint(e) && DestOf(e) in Footprint(e);
  }

  /** Every move a run attempts was allowed when the run started, its row was pending, and fewer moves
      than the budget were attempted before it. */
  lemma AttemptIsAllowed(m: Mover, listed: seq<QueueEntry>, answers: seq<EntryAnswers>, budget: int,
                         t: Table, st: Snapshot, n: nat, k: nat)
    requires Separate(listed) && k < n <= |listed| && n <= |answers|
    ensures var end := StandingAt(m, listed, answers, budget, t, st, n);
            end.results[k].attempted ==>
              && PendingId(t, listed[k].id) && Allowed(m, listed[k], answers[k].gates, st)
              && (budget >= 0 ==> Applies(StandingAt(m, listed, answers, budget, t, st, k).results) < budget)
  {
    hide Recheck, StandingAt, Allowed, Disjoint;
    StandingAtStart(m, listed, answers, budget, t, st);
    var e := listed[k];
    var before := StandingAt(m, listed, answers, budget, t, st, k);
    ResultAt(m, listed, answers, budget, t, st, k, n);
    LeavesAlone(m, listed, answers, budget, t, st, e, 0, k);
    BudgetHolds(m, listed, answers, budget, t, st, k);
    AttemptNeedsGates(m, e, answers[k], budget, before.charged, before.table, before.disk);
    if StandingAt(m, listed, answers, budget, t, st, n).results[k].attempted {
      AllowedIsLocal(m, e, answers[k].gates, before.disk, st);
    }
  }

  lemma HeldIsLocal(e: QueueEntry, a: Snapshot, b: Snapshot, original: Entry)
    requires SameOn(a, b, Footprint(e)) && Held(a, e.row.request.target, DestOf(e), original)
    ensures Held(b, e.row.request.target, DestOf(e), original)
  {
    assert e.row.request.target in Footprint(e) && DestOf(e) in Footprint(e) && Bak(e.row.request.target) in Footprint(e);
  }

  lemma UntouchedIsHeld(e: QueueEntry, s: Snapshot, st: Snapshot)
    requires SameOn(s, st, Footprint(e)) && e.row.request.target in st
    ensures Held(s, e.row.request.target, DestOf(e), st[e.row.request.target])
  {
    assert e.row.request.target in Footprint(e);
  }

  lemma RecheckHolds(m: Mover, e: QueueEntry, ans: EntryAnswers, budget: int, charged: nat, t: Table, st: Snapshot, original: Entry)
    requires Disjoint(ActionOf(e)) && e.row.request.target in st && st[e.row.request.target] == original
    ensures forall s :: s in Recheck(m, e, ans, budget, charged, t, st).states ==> Held(s, e.row.request.target, DestOf(e), original)
  {
    hide Relocate, GateBlock;
    NoLoss(m, ActionOf(e), ans.os, st);
  }

  /** Wherever a crash cuts a run, the original of every listed entry is still held: untouched, at
      its backup, or behind a link to a checked copy. */
  lemma RunHolds(m: Mover, listed: seq<QueueEntry>, answers: seq<EntryAnswers>, budget: int,
                 t: Table, st: Snapshot, n: nat, k: nat)
    requires Separate(listed) && k < |listed| && n <= |listed| && n <= |answers|
    requires listed[k].row.request.target in st
    ensures var q := listed[k].row.request;
            forall s :: s in StandingAt(m, listed, answers, budget, t, st, n).states ==>
              Held(s, q.target, DestOf(listed[k]), st[q.target])
  {
    hide Recheck, StandingAt, Held, Disjoint;
    StandingAtStart(m, listed, answers, budget, t, st);
    var e := listed[k];
    var target, original := e.row.request.target, st[e.row.request.target];
    assert target in Footprint(e);
    var end := StandingAt(m, listed, answers, budget, t, st, n);
    var upTo := if n <= k then n else k;
    var before := StandingAt(m, listed, answers, budget, t, st, upTo);
    LeavesAlone(m, listed, answers, budget, t, st, e, 0, upTo);
    forall s | s in before.states ensures Held(s, target, DestOf(e), original) {
      assert s in before.states[|StandingAt(m, listed, answers, budget, t, st, 0).states|..];
      UntouchedIsHeld(e, s, st);
    }
    UntouchedIsHeld(e, before.disk, st);
    if k < n {
      var after := StandingAt(m, listed, answers, budget, t, st, k + 1);
      NextStanding(m, listed, answers, budget, t, st, k);
      RecheckHolds(m, e, answers[k], budget, before.charged, before.table, before.disk, original);
      LeavesAlone(m, listed, answers, budget, t, st, e, k + 1, n);
      assert Held(after.disk, target, DestOf(e), original);
      forall s | s in end.states ensures Held(s, target, DestOf(e), original) {
        assert end.states == after.states + end.states[|after.states|..];
        if s !in after.states {
          HeldIsLocal(e, after.disk, s, original);
        }
      }
    }
  }

  // ---- Queue and disk at a crash ----

  /** The disk after the first `i` states. */
  function DiskAt(st: Snapshot, states: seq<Snapshot>, i: nat): Snapshot
    requires i <= |states|
  {
    if i == 0 then st else states[i - 1]
  }

  /** A crash may find exactly the first `i` states of the disk and the first `j` writes to the queue. */
  predicate CrashPoint(states: nat, writes: seq<Write>, i: nat, j: nat) {
    && i <= states && j <= |writes|
    && (j > 0 ==> writes[j - 1].after <= i)
    && (j < |writes| ==> i <= writes[j].after)
  }

  /** What the queue says of an entry agrees with what is on disk: once anything of the entry has
      changed since `st`, its row carries one more attempt than in `t`; and the row is newly applied
      only where the target is a link to a checked copy and the backup is gone. */
  ghost predicate Agrees(e: QueueEntry, t: Table, st: Snapshot, now: Table, disk: Snapshot)
    requires 1 <= e.id <= |t|
  {
    var target, dest := e.row.request.target, DestOf(e);
    && |now| == |t|
    && var row, row' := t[e.id - 1], now[e.id - 1];
       && row.attempts <= row'.attempts <= row.attempts + 1
       && (!SameOn(disk, st, Footprint(e)) ==> Pending(row) && row'.attempts == row.attempts + 1)
       && (row'.status == RelocQueue.Applied && row.status != RelocQueue.Applied ==>
             target in st && Linked(disk, target, dest, st[target]) && Bak(target) !in disk)
  }

  lemma RecheckAgrees(m: Mover, e: QueueEntry, ans: EntryAnswers, budget: int, charged: nat, t: Table, st: Snapshot, i: nat, j: nat)
    requires Disjoint(ActionOf(e)) && 1 <= e.id <= |t|
    requires var s := Recheck(m, e, ans, budget, charged, t, st); CrashPoint(|s.states|, s.writes, i, j)
    ensures var s := Recheck(m, e, ans, budget, charged, t, st);
            Agrees(e, t, st, TableAt(t, s.writes, j), DiskAt(st, s.states, i))
  {
    hide Recheck, Marked, Linked, Footprint, Disjoint;
    var s := Recheck(m, e, ans, budget, charged, t, st);
    RecheckWrites(m, e, ans, budget, charged, t, st);
    NoAttempt(m, e, ans, budget, charged, t, st);
    if j > 0 {
      assert s.writes[j - 1] in s.writes;
    }
    if s.result.attempted {
      AttemptWrites(m, e, ans, budget, charged, t, st);
      MarkOnly(t, e.id, ans.markAt);
      RecheckData(m, e, ans, budget, charged, t, st);
      AttemptOutcome(m, e, ans, budget, charged, t, st);
    }
  }

  lemma AttemptOutcome(m: Mover, e: QueueEntry, ans: EntryAnswers, budget: int, charged: nat, t: Table, st: Snapshot)
    requires Recheck(m, e, ans, budget, charged, t, st).result.attempted
    ensures var r := Recheck(m, e, ans, budget, charged, t, st).result;
            r.outcome in {OutApplied, OutBlocked} && (OutcomeOf(r, ans).status == RelocQueue.Applied <==> r.outcome == OutApplied)
  {
    hide Recheck, Concluded, Relocate;
    Attempts(m, e, ans, budget, charged, t, st);
  }

  lemma AgreesElsewhere(e: QueueEntry, t: Table, st: Snapshot, a: Table, x: Snapshot, b: Table, y: Snapshot)
    requires 1 <= e.id <= |t| && Agrees(e, t, st, a, x) && SameRow(a, b, e.id) && SameOn(x, y, Footprint(e))
    ensures Agrees(e, t, st, b, y)
  {
    assert e.row.request.target in Footprint(e) && DestOf(e) in Footprint(e) && Bak(e.row.request.target) in Footprint(e);
  }

  lemma AgreesFrom(e: QueueEntry, t: Table, st: Snapshot, t': Table, st': Snapshot, now: Table, disk: Snapshot)
    requires 1 <= e.id <= |t| && SameRow(t, t', e.id) && SameOn(st, st', Footprint(e)) && Agrees(e, t', st', now, disk)
    ensures Agrees(e, t, st, now, disk)
  {
    assert e.row.request.target in Footprint(e) && DestOf(e) in Footprint(e) && Bak(e.row.request.target) in Footprint(e);
  }

  /** A standing's table and disk are what its writes and states end in. */
  lemma {:induction false} StandingEnds(m: Mover, listed: seq<QueueEntry>, answers: seq<EntryAnswers>, budget: int,
                                        t: Table, st: Snapshot, n: nat)
    requires n <= |listed| && n <= |answers|
    ensures var now := StandingAt(m, listed, answers, budget, t, st, n);
            && now.table == TableAt(t, now.writes, |now.writes|) && now.disk == DiskAt(st, now.states, |now.states|)
            && forall w :: w in now.writes ==> w.after <= |now.states|
  {
    hide Recheck, StandingAt;
    if n == 0 {
      StandingAtStart(m, listed, answers, budget, t, st);
    } else {
      StandingEnds(m, listed, answers, budget, t, st, n - 1);
      NextStanding(m, listed, answers, budget, t, st, n - 1);
      var b := StandingAt(m, listed, answers, budget, t, st, n - 1);
      RecheckWrites(m, listed[n - 1], answers[n - 1], budget, b.charged, b.table, b.disk);
      var now, s := StandingAt(m, listed, answers, budget, t, st, n), StepAt(m, listed, answers, budget, b, n - 1);
      forall w | w in now.writes ensures w.after <= |now.states| {
        var k :| 0 <= k < |now.writes| && now.writes[k] == w;
        if k < |b.writes| {
          assert b.writes[k] in b.writes;
        } else {
          assert s.writes[k - |b.writes|] in s.writes;
        }
      }
    }
  }

  /** A crash point of a run is one of the run before its last re-check, or one of that re-check. */
  lemma CrashSplits(b: Standing, s: Step, i: nat, j: nat)
    requires forall w :: w in b.writes ==> w.after <= |b.states|
    requires CrashPoint(|b.states + s.states|, b.writes + Later(s.writes, |b.states|), i, j)
    ensures (i <= |b.states| && j <= |b.writes| && CrashPoint(|b.states|, b.writes, i, j)) ||
            (i >= |b.states| && j >= |b.writes| && CrashPoint(|s.states|, s.writes, i - |b.states|, j - |b.writes|))
  {
    var all := b.writes + Later(s.writes, |b.states|);
    if j < |b.writes| {
      assert all[j] == b.writes[j] && b.writes[j] in b.writes;
      assert j > 0 ==> all[j - 1] == b.writes[j - 1];
    } else if j == |b.writes| && i <= |b.states| {
      assert j > 0 ==> all[j - 1] == b.writes[j - 1];
    }
  }

  /** At every point at which a crash may cut a run, queue and disk agree about every listed entry:
      nothing of it has changed before its attempt is marked, and it is applied only when it is moved. */
  lemma {:induction false} MarkBeforeMove(m: Mover, listed: seq<QueueEntry>, answers: seq<EntryAnswers>, budget: int,
                                          t: Table, st: Snapshot, n: nat, k: nat, i: nat, j: nat)
    requires Separate(listed) && k < |listed| && n <= |listed| && n <= |answers| && 1 <= listed[k].id <= |t|
    requires var end := StandingAt(m, listed, answers, budget, t, st, n); CrashPoint(|end.states|, end.writes, i, j)
    ensures var end := StandingAt(m, listed, answers, budget, t, st, n);
            Agrees(listed[k], t, st, TableAt(t, end.writes, j), DiskAt(st, end.states, i))
    decreases n, 0
  {
    hide Recheck, StandingAt, Agrees, Disjoint, FootprintsApart;
    if n == 0 {
      StandingAtStart(m, listed, answers, budget, t, st);
      NothingYet(listed[k], t, st);
      OnlyStart(i, j);
    } else {
      var b, end := StandingAt(m, listed, answers, budget, t, st, n - 1), StandingAt(m, listed, answers, budget, t, st, n);
      var s := StepAt(m, listed, answers, budget, b, n - 1);
      StandingEnds(m, listed, answers, budget, t, st, n - 1);
      NextStanding(m, listed, answers, budget, t, st, n - 1);
      CrashSplits(b, s, i, j);
      if i <= |b.states| && j <= |b.writes| && CrashPoint(|b.states|, b.writes, i, j) {
        MarkBeforeMove(m, listed, answers, budget, t, st, n - 1, k, i, j);
        assert TableAt(t, end.writes, j) == TableAt(t, b.writes, j) && DiskAt(st, end.states, i) == DiskAt(st, b.states, i);
      } else {
        var i', j' := i - |b.states|, j - |b.writes|;
        assert DiskAt(st, end.states, i) == DiskAt(b.disk, s.states, i');
        assert TableAt(t, end.writes, j) == TableAt(b.table, s.writes, j');
        StepAgrees(m, listed, answers, budget, t, st, n - 1, k, i', j');
      }
    }
  }

  lemma NothingYet(e: QueueEntry, t: Table, st: Snapshot)
    requires 1 <= e.id <= |t|
    ensures Agrees(e, t, st, t, st)
  {
  }

  lemma OnlyStart(i: nat, j: nat)
    requires CrashPoint(0, [], i, j)
    ensures i == 0 && j == 0
  {
  }

  lemma AtTheEnd(states: nat, writes: seq<Write>)
    requires forall w :: w in writes ==> w.after <= states
    ensures CrashPoint(states, writes, states, |writes|)
  {
    if writes != [] {
      assert writes[|writes| - 1] in writes;
    }
  }

  /** The crash points of one re-check of the run, be it of this entry or of another. */
  lemma {:induction false} StepAgrees(m: Mover, listed: seq<QueueEntry>, answers: seq<EntryAnswers>, budget: int,
                                      t: Table, st: Snapshot, n: nat, k: nat, i: nat, j: nat)
    requires Separate(listed) && k < |listed| && n < |listed| && n < |answers| && 1 <= listed[k].id <= |t|
    requires var s := StepAt(m, listed, answers, budget, StandingAt(m, listed, answers, budget, t, st, n), n);
             CrashPoint(|s.states|, s.writes, i, j)
    ensures var b := StandingAt(m, listed, answers, budget, t, st, n);
            var s := StepAt(m, listed, answers, budget, b, n);
            Agrees(listed[k], t, st, TableAt(b.table, s.writes, j), DiskAt(b.disk, s.states, i))
    decreases n, 1
  {
    hide Recheck, StandingAt, Agrees, Disjoint, FootprintsApart;
    var e, b := listed[k], StandingAt(m, listed, answers, budget, t, st, n);
    var s := StepAt(m, listed, answers, budget, b, n);
    if n == k {
      StandingAtStart(m, listed, answers, budget, t, st);
      LeavesAlone(m, listed, answers, budget, t, st, e, 0, k);
      RecheckAgrees(m, e, answers[n], budget, b.charged, b.table, b.disk, i, j);
      AgreesFrom(e, t, st, b.table, b.disk, TableAt(b.table, s.writes, j), DiskAt(b.disk, s.states, i));
    } else {
      StandingEnds(m, listed, answers, budget, t, st, n);
      AtTheEnd(|b.states|, b.writes);
      MarkBeforeMove(m, listed, answers, budget, t, st, n, k, |b.states|, |b.writes|);
      OtherStep(m, listed[n], answers[n], budget, b.charged, b.table, b.disk, e, i, j);
      AgreesElsewhere(e, t, st, b.table, b.disk, TableAt(b.table, s.writes, j), DiskAt(b.disk, s.states, i));
    }
  }

  /** No point of a re-check touches the row or the paths of another entry. */
  lemma OtherStep(m: Mover, other: QueueEntry, ans: EntryAnswers, budget: int, charged: nat, t: Table, st: Snapshot,
                  e: QueueEntry, i: nat, j: nat)
    requires other.id != e.id && FootprintsApart(other, e)
    requires var s := Recheck(m, other, ans, budget, charged, t, st); i <= |s.states| && j <= |s.writes|
    ensures var s := Recheck(m, other, ans, budget, charged, t, st);
            SameRow(t, TableAt(t, s.writes, j), e.id) && SameOn(st, DiskAt(st, s.states, i), Footprint(e))
  {
    hide Recheck, FootprintsApart;
    var s := Recheck(m, other, ans, budget, charged, t, st);
    RecheckWrites(m, other, ans, budget, charged, t, st);
    RecheckTouches(m, other, ans, budget, charged, t, st);
    ApartShareNothing(other, e);
    StatesAlone(st, s.states, st, other, e);
    if j > 0 {
      assert s.writes[j - 1] in s.writes;
    }
    if i > 0 {
      assert s.states[i - 1] in s.states;
    }
  }
}
