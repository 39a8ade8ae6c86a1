/** One tick: persist what is new, maybe clean, maybe apply one deferred relocation. Ticks are
    serialised by the daemon's mutex, so a tick is one method here. */
module Tick {
  import opened Options
  import opened AuditLedger
  import opened AutoClean
  import opened AutoCleanGates
  import opened Suggestions
  import opened Triggers
  import FileSystem
  import PendingRuns
  import PendingSafety
  import Relocation
  import RelocQueue

  datatype OffloadConfig = OffloadConfig(autoApplyPending: bool, riskAcknowledgedAt: string)

  /** The outside, as far as the retry of open rows sees it: targets that are gone, and rows whose
      dismissal the store refuses. */
  datatype RetryAnswers = RetryAnswers(listErr: bool, gone: set<Path>, refused: set<nat>, at: int)

  // ---- Retrying open rows ----

  function IdsOf(list: seq<Suggestion>): set<int> {
    set s | s in list :: s.id
  }

  /** An open row that is worth another try and was not just persisted. */
  predicate Retryable(x: OpenEntry, seen: set<int>) {
    SelfProving(x.row.key.module_) && x.id !in seen
  }

  function Projected(x: OpenEntry): Suggestion {
    Suggestion(x.id, x.row.key.module_, x.row.key.target, x.row.reason, 0, None, None)
  }

  function Retried(listing: seq<OpenEntry>, seen: set<int>, gone: set<Path>): seq<Suggestion> {
    if listing == [] then []
    else
      var n := |listing| - 1;
      Retried(listing[..n], seen, gone) +
      if Retryable(listing[n], seen) && listing[n].row.key.target !in gone then [Projected(listing[n])] else []
  }

  /** The table once the rows of vanished targets are dismissed. */
  function Swept(t: Table, listing: seq<OpenEntry>, seen: set<int>, ans: RetryAnswers): Table {
    if listing == [] then t
    else
      var n := |listing| - 1;
      var before := Swept(t, listing[..n], seen, ans);
      if Retryable(listing[n], seen) && listing[n].row.key.target in ans.gone && listing[n].id !in ans.refused
      then Dismissed(before, listing[n].id, ans.at) else before
  }

  method OpenLeakSuggestions(table: SuggestionTable, added: seq<Suggestion>, ans: RetryAnswers)
    returns (out: seq<Suggestion>, ghost listing: seq<OpenEntry>)
    modifies table
    ensures if ans.listErr then listing == [] else IsOpenList(old(table.rows), listing)
    ensures out == Retried(listing, IdsOf(added), ans.gone)
    ensures table.rows == Swept(old(table.rows), listing, IdsOf(added), ans)
  {
    out, listing := [], [];
    if ans.listErr {
      return;
    }
    var rows := table.ListOpen();
    listing := rows;
    var seen := IdsOf(added);
    for i := 0 to |rows|
      invariant out == Retried(rows[..i], seen, ans.gone)
      invariant table.rows == Swept(old(table.rows), rows[..i], seen, ans)
    {
      var x := rows[i];
      assert rows[..i + 1][..i] == rows[..i];
      if !SelfProving(x.row.key.module_) || x.id in seen {
        continue;
      }
      if x.row.key.target in ans.gone {
        if x.id !in ans.refused {
          table.Dismiss(x.id, ans.at);
        }
        continue;
      }
      out := out + [Projected(x)];
    }
    assert rows[..|rows|] == rows;
  }

  /** A list in which no id and no module and target occurs twice. */
  ghost predicate NoRepeats(list: seq<Suggestion>) {
    forall i, j :: 0 <= i < j < |list| ==> list[i].id != list[j].id && KeyOf(list[i]) != KeyOf(list[j])
  }

  /** Every element stands for an open row of the table. */
  ghost predicate StandsForOpenRow(t: Table, s: Suggestion) {
    OpenId(t, s.id) && t[s.id - 1].key == KeyOf(s)
  }

  lemma {:induction false} RetriedAreOpen(t: Table, listing: seq<OpenEntry>, seen: set<int>, gone: set<Path>)
    requires forall k :: 0 <= k < |listing| ==> OpenId(t, listing[k].id) && listing[k].row == t[listing[k].id - 1]
    ensures forall s :: s in Retried(listing, seen, gone) ==>
              StandsForOpenRow(t, s) && s.id !in seen && Projects(listing, s.id)
  {
    if listing != [] {
      var n := |listing| - 1;
      RetriedAreOpen(t, listing[..n], seen, gone);
      forall s | s in Retried(listing[..n], seen, gone) ensures Projects(listing, s.id) {
        var k :| 0 <= k < n && listing[..n][k].id == s.id;
        assert listing[k].id == s.id;
      }
      assert listing[n].id == Projected(listing[n]).id;
    }
  }

  ghost predicate Projects(listing: seq<OpenEntry>, id: int) {
    exists k :: 0 <= k < |listing| && listing[k].id == id
  }

  /** An open row that is tried again: it proves itself, was not just persisted, and its target is
      still there. */
  ghost predicate TriedAgain(t: Table, added: seq<Suggestion>, gone: set<Path>, id: nat) {
    && 1 <= id <= |t| && t[id - 1].dismissedAt == None
    && t[id - 1].key.module_ in {"leaks", "worktrees"}
    && t[id - 1].key.target !in gone
    && forall f :: f in added ==> f.id != id
  }

  /** What is handed on for a row: its id, module, target and reason, and no size. */
  function Again(t: Table, id: nat): Suggestion
    requires 1 <= id <= |t|
  {
    Suggestion(id, t[id - 1].key.module_, t[id - 1].key.target, t[id - 1].reason, 0, None, None)
  }

  lemma {:induction false} RetriedOf(t: Table, listing: seq<OpenEntry>, added: seq<Suggestion>, gone: set<Path>, s: Suggestion)
    requires forall k :: 0 <= k < |listing| ==> OpenId(t, listing[k].id) && listing[k].row == t[listing[k].id - 1]
    ensures s in Retried(listing, IdsOf(added), gone) <==>
            exists k :: 0 <= k < |listing| && TriedAgain(t, added, gone, listing[k].id) && s == Again(t, listing[k].id)
  {
    hide TriedAgain;
    if listing != [] {
      var n := |listing| - 1;
      RetriedOf(t, listing[..n], added, gone, s);
      LastTried(t, listing[n], added, gone);
      if s in Retried(listing[..n], IdsOf(added), gone) {
        var k :| 0 <= k < n && TriedAgain(t, added, gone, listing[..n][k].id) && s == Again(t, listing[..n][k].id);
        assert listing[k] == listing[..n][k];
      }
      if k :| 0 <= k < n && TriedAgain(t, added, gone, listing[k].id) && s == Again(t, listing[k].id) {
        assert listing[..n][k] == listing[k];
      }
    }
  }

  lemma LastTried(t: Table, x: OpenEntry, added: seq<Suggestion>, gone: set<Path>)
    requires OpenId(t, x.id) && x.row == t[x.id - 1]
    ensures TriedAgain(t, added, gone, x.id) <==> Retryable(x, IdsOf(added)) && x.row.key.target !in gone
    ensures Projected(x) == Again(t, x.id)
  {
  }

  /** Every open row is tried again exactly once if it is of a self-proving module, not fresh, and its
      target is still there; nothing else is. */
  lemma RetriedIff(t: Table, listing: seq<OpenEntry>, added: seq<Suggestion>, gone: set<Path>)
    requires IsOpenList(t, listing)
    ensures var out := Retried(listing, IdsOf(added), gone);
            && (forall s :: s in out ==> exists id: nat :: TriedAgain(t, added, gone, id) && s == Again(t, id))
            && (forall id: nat :: TriedAgain(t, added, gone, id) ==> Again(t, id) in out)
            && (forall i, j :: 0 <= i < j < |out| ==> out[i].id != out[j].id)
  {
    hide Retried, IdsOf;
    var out := Retried(listing, IdsOf(added), gone);
    RetriedDiffer(t, listing, IdsOf(added), gone);
    forall s | s in out ensures exists id: nat :: TriedAgain(t, added, gone, id) && s == Again(t, id) {
      RetriedOf(t, listing, added, gone, s);
      var k :| 0 <= k < |listing| && TriedAgain(t, added, gone, listing[k].id) && s == Again(t, listing[k].id);
    }
    forall id: nat | TriedAgain(t, added, gone, id) ensures Again(t, id) in out {
      assert OpenId(t, id) && OpenEntry(id, t[id - 1]) in listing;
      var k :| 0 <= k < |listing| && listing[k] == OpenEntry(id, t[id - 1]);
      RetriedOf(t, listing, added, gone, Again(t, id));
      assert TriedAgain(t, added, gone, listing[k].id);
    }
  }

  /** An open self-proving row that is not fresh and whose target is gone, if the store takes the
      dismissal. */
  ghost predicate SweptAway(t: Table, added: seq<Suggestion>, ans: RetryAnswers, id: nat) {
    && 1 <= id <= |t| && t[id - 1].dismissedAt == None
    && t[id - 1].key.module_ in {"leaks", "worktrees"}
    && t[id - 1].key.target in ans.gone
    && (forall f :: f in added ==> f.id != id)
    && id !in ans.refused
  }

  lemma {:induction false} SweptOf(t: Table, listing: seq<OpenEntry>, added: seq<Suggestion>, ans: RetryAnswers, id: nat)
    requires forall k :: 0 <= k < |listing| ==> OpenId(t, listing[k].id) && listing[k].row == t[listing[k].id - 1]
    requires 1 <= id <= |t|
    ensures var after := Swept(t, listing, IdsOf(added), ans);
            && |after| == |t|
            && after[id - 1] ==
               if SweptAway(t, added, ans, id) && (exists k :: 0 <= k < |listing| && listing[k].id == id)
               then Row(t[id - 1].ts, t[id - 1].key, t[id - 1].reason, Some(ans.at)) else t[id - 1]
  {
    hide SweptAway, Retryable, IdsOf;
    if listing != [] {
      var n := |listing| - 1;
      SweptOf(t, listing[..n], added, ans, id);
      LastSwept(t, listing[n], added, ans);
      if k :| 0 <= k < n && listing[k].id == id {
        assert listing[..n][k].id == id;
      }
    }
  }

  lemma LastSwept(t: Table, x: OpenEntry, added: seq<Suggestion>, ans: RetryAnswers)
    requires OpenId(t, x.id) && x.row == t[x.id - 1]
    ensures SweptAway(t, added, ans, x.id) <==>
            Retryable(x, IdsOf(added)) && x.row.key.target in ans.gone && x.id !in ans.refused
  {
  }

  /** The table changes in exactly those rows: they are dismissed, at the time of the sweep. */
  lemma SweptIff(t: Table, listing: seq<OpenEntry>, added: seq<Suggestion>, ans: RetryAnswers, id: nat)
    requires IsOpenList(t, listing) && 1 <= id <= |t|
    ensures var after := Swept(t, listing, IdsOf(added), ans);
            && |after| == |t|
            && after[id - 1] == if SweptAway(t, added, ans, id)
                                then Row(t[id - 1].ts, t[id - 1].key, t[id - 1].reason, Some(ans.at)) else t[id - 1]
  {
    hide Swept, IdsOf;
    SweptOf(t, listing, added, ans, id);
    if SweptAway(t, added, ans, id) {
      assert OpenId(t, id) && OpenEntry(id, t[id - 1]) in listing;
      var k :| 0 <= k < |listing| && listing[k] == OpenEntry(id, t[id - 1]);
      assert listing[k].id == id;
    }
  }

  ghost predicate IdsDiffer(list: seq<Suggestion>) {
    forall i, j :: 0 <= i < j < |list| ==> list[i].id != list[j].id
  }

  lemma {:induction false} RetriedDiffer(t: Table, listing: seq<OpenEntry>, seen: set<int>, gone: set<Path>)
    requires forall k :: 0 <= k < |listing| ==> OpenId(t, listing[k].id) && listing[k].row == t[listing[k].id - 1]
    requires forall j, k :: 0 <= j < k < |listing| ==> listing[j].id != listing[k].id
    ensures IdsDiffer(Retried(listing, seen, gone))
  {
    hide StandsForOpenRow, Retryable;
    if listing != [] {
      var n := |listing| - 1;
      RetriedDiffer(t, listing[..n], seen, gone);
      RetriedAreOpen(t, listing[..n], seen, gone);
      var before := Retried(listing[..n], seen, gone);
      forall i | 0 <= i < |before| ensures before[i].id != listing[n].id {
        assert before[i] in before;
        var k :| 0 <= k < n && listing[..n][k].id == before[i].id;
        assert listing[k].id == before[i].id;
      }
      var out := Retried(listing, seen, gone);
      forall i, j | 0 <= i < j < |out| ensures out[i].id != out[j].id {
        assert out[i] == before[i];
      }
    }
  }

  lemma AddedAreOpen(t: Table, p: Persisted)
    requires GrewBy(t, p)
    ensures forall s :: s in p.added ==> StandsForOpenRow(p.table, s)
    ensures IdsDiffer(p.added)
  {
    forall s | s in p.added ensures StandsForOpenRow(p.table, s) {
      var i :| 0 <= i < |p.added| && p.added[i] == s;
      assert p.added[i].id == |t| + i + 1;
    }
  }

  /** Open rows with different ids are about different things. */
  lemma OpenRowsDiffer(t: Table, a: Suggestion, b: Suggestion)
    requires OpenOnce(t) && StandsForOpenRow(t, a) && StandsForOpenRow(t, b) && a.id != b.id
    ensures KeyOf(a) != KeyOf(b)
  {
    var i, j := a.id - 1, b.id - 1;
    assert if i < j then t[i].key != t[j].key else t[j].key != t[i].key;
  }

  /** The list handed to the engine: what was just persisted, then retried rows, none of them twice. */
  lemma CleanableHasNoRepeats(t: Table, candidates: seq<Suggestion>, answers: seq<PersistAnswer>, listing: seq<OpenEntry>, gone: set<Path>)
    requires OpenOnce(t) && |answers| == |candidates|
    requires var p := PersistUpTo(t, candidates, answers, |candidates|);
             listing == [] || IsOpenList(p.table, listing)
    ensures var p := PersistUpTo(t, candidates, answers, |candidates|);
            NoRepeats(p.added + Retried(listing, IdsOf(p.added), gone))
  {
    var p := PersistUpTo(t, candidates, answers, |candidates|);
    PersistKeepsOpenOnce(t, candidates, answers, |candidates|);
    PersistGrows(t, candidates, answers, |candidates|);
    RepeatFree(t, p, listing, gone);
  }

  lemma RepeatFree(t: Table, p: Persisted, listing: seq<OpenEntry>, gone: set<Path>)
    requires GrewBy(t, p) && OpenOnce(p.table) && (listing == [] || IsOpenList(p.table, listing))
    ensures NoRepeats(p.added + Retried(listing, IdsOf(p.added), gone))
  {
    hide StandsForOpenRow, OpenOnce, GrewBy, Retried;
    var retried := Retried(listing, IdsOf(p.added), gone);
    AddedAreOpen(t, p);
    RetriedAreOpen(p.table, listing, IdsOf(p.added), gone);
    RetriedDiffer(p.table, listing, IdsOf(p.added), gone);
    TogetherNoRepeats(p.table, p.added, retried);
  }

  lemma TogetherNoRepeats(t: Table, added: seq<Suggestion>, retried: seq<Suggestion>)
    requires OpenOnce(t)
    requires forall s :: s in added || s in retried ==> StandsForOpenRow(t, s)
    requires forall s :: s in retried ==> s.id !in IdsOf(added)
    requires IdsDiffer(added) && IdsDiffer(retried)
    ensures NoRepeats(added + retried)
  {
    hide StandsForOpenRow, OpenOnce;
    var list := added + retried;
    forall i, j | 0 <= i < j < |list| ensures list[i].id != list[j].id && KeyOf(list[i]) != KeyOf(list[j]) {
      if i < |added| <= j {
        assert list[i] in added && list[j] in retried;
        assert list[i].id in IdsOf(added);
      }
      assert list[i].id != list[j].id;
      OpenRowsDiffer(t, list[i], list[j]);
    }
  }

  lemma {:induction false} SweptKeepsOpenOnce(t: Table, listing: seq<OpenEntry>, seen: set<int>, ans: RetryAnswers)
    requires OpenOnce(t)
    ensures OpenOnce(Swept(t, listing, seen, ans))
  {
    if listing != [] {
      SweptKeepsOpenOnce(t, listing[..|listing| - 1], seen, ans);
    }
  }

  lemma {:induction false} CleanKeepsOpenOnce(e: Engine, cap: int, trigger: TickTrigger, ledger: Ledger, rows: Table,
                                              list: seq<Suggestion>, answers: seq<AutoClean.Answers>, n: nat)
    requires n <= |list| && n <= |answers| && OpenOnce(rows)
    ensures OpenOnce(CleanUpTo(e, cap, trigger, Start(ledger, rows), list, answers, n).rows)
  {
    hide ApplyTo;
    if n > 0 {
      CleanKeepsOpenOnce(e, cap, trigger, ledger, rows, list, answers, n - 1);
    }
  }

  // ---- The tick ----

  predicate PendingAutoApplyAllowed(trigger: TickTrigger, oc: OffloadConfig) {
    trigger == Daily && oc.autoApplyPending && oc.riskAcknowledgedAt != ""
  }

  /** What a tick did: the list it gave to the engine, the actions the engine was handed, what it
      reports, and how the pending run ended, if there was one. */
  datatype TickReport = TickReport(
    newCount: nat, cleanable: seq<Suggestion>, handed: seq<Action>, freed: int, deleted: nat,
    pending: Option<PendingRuns.RunResult>)

  /** A pending run with a budget of one: queue, disk, states and writes are where the re-checks of
      the pending rows lead. */
  ghost predicate RanOnce(
    mover: Relocation.Mover, queued: seq<RelocQueue.QueueEntry>, pending: nat -> PendingRuns.EntryAnswers,
    t: RelocQueue.Table, st: FileSystem.Snapshot, trail: seq<FileSystem.Snapshot>, writes: seq<RelocQueue.Write>,
    results: seq<PendingRuns.PendingResult>, qs: RelocQueue.RelocationQueue, disk: FileSystem.Disk)
    reads qs, disk
  {
    var given := seq(|queued|, pending);
    var end := PendingRuns.StandingAt(mover, queued, given, 1, t, st, PendingRuns.Reached(given));
    && RelocQueue.IsPendingList(t, queued)
    && results == end.results && qs.rows == end.table
    && disk.entries == end.disk && disk.trail == trail + end.states
    && qs.writes == writes + PendingRuns.Later(end.writes, |trail|)
  }

  method RunPendingRelocations(mover: Relocation.Mover, qs: RelocQueue.RelocationQueue, disk: FileSystem.Disk,
                               pending: nat -> PendingRuns.EntryAnswers, listErr: bool)
    returns (r: PendingRuns.RunResult, ghost queued: seq<RelocQueue.QueueEntry>)
    requires qs.disk == disk
    modifies qs, disk
    ensures r.Ran? <==> !listErr
    ensures r.Ran? ==>
              && PendingSafety.Applies(r.results) <= 1
              && RanOnce(mover, queued, pending, old(qs.rows), old(disk.entries), old(disk.trail), old(qs.writes), r.results, qs, disk)
    ensures !r.Ran? ==>
              && qs.rows == old(qs.rows) && qs.writes == old(qs.writes)
              && disk.entries == old(disk.entries) && disk.trail == old(disk.trail)
  {
    r, queued := PendingRuns.RunPending(mover, qs, disk, Daily, 1, pending, listErr);
    if r.Ran? {
      ghost var given := seq(|queued|, pending);
      PendingSafety.BudgetHolds(mover, queued, given, 1, old(qs.rows), old(disk.entries), PendingRuns.Reached(given));
    }
  }

  /** The clean part of a tick: what it retries, hands over, reports and writes. */
  method MaybeClean(trigger: TickTrigger, e: Engine, added: seq<Suggestion>, table: SuggestionTable, audit: Audit,
                    deleters: Deleters, retry: RetryAnswers, clean: nat -> AutoClean.Answers)
    returns (cleanable: seq<Suggestion>, handed: seq<Action>, freed: int, deleted: nat, ghost listing: seq<OpenEntry>)
    modifies table, audit, deleters
    ensures ((trigger == Daily || trigger == Manual) && e.cfg.enabled) ==>
              && (if retry.listErr then listing == [] else IsOpenList(old(table.rows), listing))
              && cleanable == added + Retried(listing, IdsOf(added), retry.gone)
              && var end := CleanUpTo(e, CapBytes(e.cfg.sizeCapPerTickGB), trigger,
                                      Start(old(audit.events), Swept(old(table.rows), listing, IdsOf(added), retry)),
                                      cleanable, seq(|cleanable|, clean), |cleanable|);
                 && handed == end.handed && freed == end.freed && deleted == end.deleted
                 && audit.events == end.ledger && table.rows == end.rows
                 && deleters.calls == old(deleters.calls) + end.calls
    ensures !((trigger == Daily || trigger == Manual) && e.cfg.enabled) ==>
              && cleanable == [] && handed == [] && freed == 0 && deleted == 0
              && table.rows == old(table.rows) && audit.events == old(audit.events) && deleters.calls == old(deleters.calls)
    ensures old(OpenOnce(table.rows)) ==> OpenOnce(table.rows)
  {
    listing, cleanable, handed, freed, deleted := [], [], [], 0, 0;
    if (trigger == Daily || trigger == Manual) && e.cfg.enabled {
      ghost var t := table.rows;
      var retried: seq<Suggestion>;
      retried, listing := OpenLeakSuggestions(table, added, retry);
      cleanable := added + retried;
      ghost var ledger, rows := audit.events, table.rows;
      freed, deleted, handed := RunAutoClean(e, audit, table, deleters, cleanable, trigger, seq(|cleanable|, clean));
      if old(OpenOnce(table.rows)) {
        SweptKeepsOpenOnce(t, listing, IdsOf(added), retry);
        CleanKeepsOpenOnce(e, CapBytes(e.cfg.sizeCapPerTickGB), trigger, ledger, rows, cleanable, seq(|cleanable|, clean), |cleanable|);
      }
    }
  }

  method RunTick(
    trigger: TickTrigger, e: Engine, oc: OffloadConfig,
    found: array<Suggestion>, table: SuggestionTable, audit: Audit, deleters: Deleters,
    persist: seq<PersistAnswer>, retry: RetryAnswers, clean: nat -> AutoClean.Answers,
    mover: Relocation.Mover, qs: RelocQueue.RelocationQueue, disk: FileSystem.Disk,
    pending: nat -> PendingRuns.EntryAnswers, pendingListErr: bool)
    returns (r: TickReport, ghost listing: seq<OpenEntry>, ghost queued: seq<RelocQueue.QueueEntry>)
    requires |persist| == found.Length && qs.disk == disk
    modifies found, table, audit, deleters, qs, disk
    ensures var p := PersistUpTo(old(table.rows), old(found[..]), persist, found.Length);
            && r.newCount == |p.added|
            && (((trigger == Daily || trigger == Manual) && e.cfg.enabled) ==>
                  && (if retry.listErr then listing == [] else IsOpenList(p.table, listing))
                  && r.cleanable == p.added + Retried(listing, IdsOf(p.added), retry.gone)
                  && var end := CleanUpTo(e, CapBytes(e.cfg.sizeCapPerTickGB), trigger,
                                          Start(old(audit.events), Swept(p.table, listing, IdsOf(p.added), retry)),
                                          r.cleanable, seq(|r.cleanable|, clean), |r.cleanable|);
                     && r.handed == end.handed && r.freed == end.freed && r.deleted == end.deleted
                     && audit.events == end.ledger && table.rows == end.rows
                     && deleters.calls == old(deleters.calls) + end.calls)
            && (!((trigger == Daily || trigger == Manual) && e.cfg.enabled) ==>
                  && r.cleanable == [] && r.handed == [] && r.freed == 0 && r.deleted == 0
                  && table.rows == p.table && audit.events == old(audit.events) && deleters.calls == old(deleters.calls))
    ensures old(OpenOnce(table.rows)) ==> OpenOnce(table.rows) && NoRepeats(r.cleanable)
    ensures r.pending.Some? <==> trigger == Daily && oc.autoApplyPending && oc.riskAcknowledgedAt != ""
    ensures r.pending.Some? ==> (r.pending.value.Ran? <==> !pendingListErr)
    ensures r.pending.Some? && r.pending.value.Ran? ==>
              && PendingSafety.Applies(r.pending.value.results) <= 1
              && RanOnce(mover, queued, pending, old(qs.rows), old(disk.entries), old(disk.trail), old(qs.writes),
                         r.pending.value.results, qs, disk)
    ensures !(r.pending.Some? && r.pending.value.Ran?) ==>
              && qs.rows == old(qs.rows) && qs.writes == old(qs.writes)
              && disk.entries == old(disk.entries) && disk.trail == old(disk.trail)
  {
    hide RanOnce;
    ghost var t, candidates := table.rows, found[..];
    var n := PersistNew(found, table, persist);
    var added := found[..n];
    ghost var p := PersistUpTo(t, candidates, persist, found.Length);
    var cleanable: seq<Suggestion>, handed: seq<Action>, freed, deleted;
    if old(OpenOnce(table.rows)) {
      PersistKeepsOpenOnce(t, candidates, persist, found.Length);
    }
    cleanable, handed, freed, deleted, listing := MaybeClean(trigger, e, added, table, audit, deleters, retry, clean);
    if old(OpenOnce(table.rows)) && ((trigger == Daily || trigger == Manual) && e.cfg.enabled) {
      CleanableHasNoRepeats(t, candidates, persist, listing, retry.gone);
    }
    var ran: Option<PendingRuns.RunResult> := None;
    queued := [];
    if PendingAutoApplyAllowed(trigger, oc) {
      var result;
      result, queued := RunPendingRelocations(mover, qs, disk, pending, pendingListErr);
      ran := Some(result);
    }
    r := TickReport(n, cleanable, handed, freed, deleted, ran);
  }
}
