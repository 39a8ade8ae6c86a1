/** What one tick's deletes promise: which actions are handed over, that every delete is audited
    first and closed after, and that the ledger agrees with what the tick reports. */
module AutoCleanSafety {
  import opened Options
  import opened AuditLedger
  import opened AutoClean
  import opened AutoCleanGates
  import opened Suggestions
  import opened Triggers

  // ---- Which actions are handed over ----

  /** The actions of the suggestions that pass the gates, in order. */
  function Passing(list: seq<Suggestion>, cfg: Config): seq<Action> {
    if list == [] then []
    else
      var n := |list| - 1;
      Passing(list[..n], cfg) + if Blocked(list[n], cfg).None? then [ActionOf(list[n])] else []
  }

  function Sizes(actions: seq<Action>): (r: seq<int>)
    ensures |r| == |actions|
  {
    seq(|actions|, i requires 0 <= i < |actions| => actions[i].sizeBytes)
  }

  /** The budget after it took these sizes. */
  function UsedAfter(used: int, sizes: seq<int>): int
    decreases |sizes|
  {
    if sizes == [] then used else UsedAfter(Wrap(used + sizes[0]), sizes[1..])
  }

  lemma {:induction false} AdmittedSnoc(cap: int, used: int, sizes: seq<int>, x: int)
    ensures var n := Admitted(cap, used, sizes);
            Admitted(cap, used, sizes + [x]) ==
            if n == |sizes| && Accepts(cap, UsedAfter(used, sizes), x) then n + 1 else n
    ensures UsedAfter(used, sizes + [x]) == Wrap(UsedAfter(used, sizes) + x)
    decreases |sizes|
  {
    if sizes != [] {
      assert (sizes + [x])[1..] == sizes[1..] + [x];
      AdmittedSnoc(cap, Wrap(used + sizes[0]), sizes[1..], x);
    } else {
      assert ([] + [x])[1..] == [];
    }
  }

  lemma NothingAdmitted(cap: int)
    ensures Admitted(cap, 0, []) == 0 && UsedAfter(0, []) == 0
  {
  }

  lemma HandOverCharges(e: Engine, t: Tally, a: Action, trigger: TickTrigger, ans: AutoClean.Answers)
    ensures var t' := HandOver(e, t, a, trigger, ans);
            t'.handed == t.handed + [a] && t'.used == Wrap(t.used + a.sizeBytes) && t'.halted == t.halted
  {
    hide ApplyTo;
  }

  /** A tick hands over the passing actions up to the first that the budget refuses. */
  lemma {:induction false} HandedIsAdmitted(e: Engine, cap: int, trigger: TickTrigger, ledger: Ledger, rows: Table,
                         list: seq<Suggestion>, answers: seq<AutoClean.Answers>, n: nat)
    requires n <= |list| && n <= |answers|
    ensures var t, passing := CleanUpTo(e, cap, trigger, Start(ledger, rows), list, answers, n), Passing(list[..n], e.cfg);
            var k := Admitted(cap, 0, Sizes(passing));
            && t.handed == passing[..k]
            && (t.halted <==> k < |passing|)
            && (!t.halted ==> t.used == UsedAfter(0, Sizes(passing)))
  {
    hide HandOver, Blocked, Accepts, Admitted, UsedAfter;
    NothingAdmitted(cap);
    if n > 0 {
      HandedIsAdmitted(e, cap, trigger, ledger, rows, list, answers, n - 1);
      var t, before := CleanUpTo(e, cap, trigger, Start(ledger, rows), list, answers, n - 1), Passing(list[..n - 1], e.cfg);
      assert list[..n][..n - 1] == list[..n - 1];
      if Blocked(list[n - 1], e.cfg).None? {
        var passing := before + [ActionOf(list[n - 1])];
        assert Sizes(passing) == Sizes(before) + [ActionOf(list[n - 1]).sizeBytes];
        AdmittedSnoc(cap, 0, Sizes(before), ActionOf(list[n - 1]).sizeBytes);
        HandOverCharges(e, t, ActionOf(list[n - 1]), trigger, answers[n - 1]);
      } else {
        assert Passing(list[..n], e.cfg) == before;
      }
    }
  }

  lemma HandedSizes(passing: seq<Action>, k: nat)
    requires k <= |passing|
    ensures Sizes(passing[..k]) == Sizes(passing)[..k]
  {
  }

  /** The actions of a tick are exactly the gate-passing ones, in order, before the first whose
      declared size is negative or overflows the cap, and their sizes sum to at most the cap, if
      and only if the first sum past the cap fits in 64 bits. */
  lemma TickKeepsCapIff(e: Engine, trigger: TickTrigger, ledger: Ledger, rows: Table,
                        list: seq<Suggestion>, answers: seq<AutoClean.Answers>)
    requires |answers| == |list| && forall s :: s in list ==> IsInt64(SuggestionSize(s))
    ensures var cap, passing := CapBytes(e.cfg.sizeCapPerTickGB), Passing(list, e.cfg);
            var handed := CleanUpTo(e, cap, trigger, Start(ledger, rows), list, answers, |list|).handed;
            && (handed == passing[..WithinCap(cap, 0, Sizes(passing))] <==> StopIsRepresentable(cap, Sizes(passing)))
            && (StopIsRepresentable(cap, Sizes(passing)) && cap >= 0 ==> 0 <= Sum(Sizes(handed)) <= cap)
  {
    var cap, passing := CapBytes(e.cfg.sizeCapPerTickGB), Passing(list, e.cfg);
    assert list[..|list|] == list;
    HandedIsAdmitted(e, cap, trigger, ledger, rows, list, answers, |list|);
    PassingSizes(list, e.cfg);
    BudgetKeepsCapIff(cap, Sizes(passing));
    WithinCapFits(cap, 0, Sizes(passing));
    var n := WithinCap(cap, 0, Sizes(passing));
    HandedSizes(passing, n);
    SumNonNegative(Sizes(passing)[..n]);
    assert |passing[..Admitted(cap, 0, Sizes(passing))]| == Admitted(cap, 0, Sizes(passing));
  }

  /** With no cap configured a tick still hands over, unless what passes the gates starts with a
      declared size other than zero; retried rows declare zero. */
  lemma NoCapTickIff(e: Engine, trigger: TickTrigger, ledger: Ledger, rows: Table,
                     list: seq<Suggestion>, answers: seq<AutoClean.Answers>)
    requires |answers| == |list| && forall s :: s in list ==> IsInt64(SuggestionSize(s))
    requires e.cfg.sizeCapPerTickGB <= 0
    ensures var cap, passing := CapBytes(e.cfg.sizeCapPerTickGB), Passing(list, e.cfg);
            CleanUpTo(e, cap, trigger, Start(ledger, rows), list, answers, |list|).handed == []
            <==> passing == [] || passing[0].sizeBytes != 0
  {
    var cap, passing := CapBytes(e.cfg.sizeCapPerTickGB), Passing(list, e.cfg);
    assert list[..|list|] == list;
    HandedIsAdmitted(e, cap, trigger, ledger, rows, list, answers, |list|);
    PassingSizes(list, e.cfg);
    NoCapRefusesIff(e.cfg.sizeCapPerTickGB, Sizes(passing));
    assert |passing[..Admitted(cap, 0, Sizes(passing))]| == Admitted(cap, 0, Sizes(passing));
  }

  lemma {:induction false} PassingSizes(list: seq<Suggestion>, cfg: Config)
    requires forall s :: s in list ==> IsInt64(SuggestionSize(s))
    ensures forall k :: 0 <= k < |Passing(list, cfg)| ==> IsInt64(Sizes(Passing(list, cfg))[k])
  {
    if list != [] {
      var n := |list| - 1;
      PassingSizes(list[..n], cfg);
      assert list[n] in list;
      var before := Passing(list[..n], cfg);
      assert forall k :: 0 <= k < |before| ==> Sizes(before)[k] == before[k].sizeBytes;
    }
  }

  // ---- The audit trail ----

  lemma {:induction false} RollUpAppends(l: Ledger, rows: seq<Event>, since: int)
    requires |rows| <= 1
    ensures DeletedSince(l + rows, since) == DeletedSince(l, since) + DeletedSince(rows, since)
    ensures FreedSince(l + rows, since) == FreedSince(l, since) + FreedSince(rows, since)
    ensures Stranded(l + rows) == Stranded(l) + Stranded(rows)
  {
    if rows == [] {
      assert l + rows == l;
    } else {
      assert rows == [rows[0]];
      OneMoreRow(l, rows[0], since);
      OneMoreRow([], rows[0], since);
      assert [] + [rows[0]] == rows;
    }
  }

  /** The ledger against the report. */
  ghost predicate Agrees(t: Tally, ledger: Ledger, since: int) {
    && DeletedSince(t.ledger, since) + t.silent == DeletedSince(ledger, since) + t.deleted
    && FreedSince(t.ledger, since) + t.silentFreed == FreedSince(ledger, since) + t.freed
    && Stranded(t.ledger) == Stranded(ledger) + t.lost
    && t.silent <= t.lost
  }

  /** What the rows of one applied action add to the roll-up. */
  lemma RowsOfOne(e: Engine, ledger: Ledger, a: Action, trigger: TickTrigger, ans: AutoClean.Answers, since: int)
    requires since <= ans.now
    ensures var done := ApplyTo(e, ledger, a, trigger, ans);
            var lost := done.calls != [] && ans.updateErr;
            && |done.rows| <= 1
            && DeletedSince(done.rows, since) == (if done.result.Done? && !lost then 1 else 0)
            && FreedSince(done.rows, since) == (if done.result.Done? && !lost then ans.freed else 0)
            && Stranded(done.rows) == (if lost then 1 else 0)
            && (done.result.Done? ==> done.result.freed == ans.freed && done.calls != [])
  {
    hide Guarded, DeletedSince, FreedSince, Stranded;
    FewRows(NewEvent(a, trigger, ans.now, Skipped), since);
    FewRows(NewEvent(a, trigger, ans.now, InProgress), since);
    FewRows(ClosedEvent(a, trigger, ans), since);
  }

  lemma HandOverAgrees(e: Engine, t: Tally, a: Action, trigger: TickTrigger, ans: AutoClean.Answers, ledger: Ledger, since: int)
    requires Agrees(t, ledger, since) && since <= ans.now
    ensures Agrees(HandOver(e, t, a, trigger, ans), ledger, since)
  {
    hide ApplyTo, DeletedSince, FreedSince, Stranded;
    RowsOfOne(e, t.ledger, a, trigger, ans, since);
    RollUpAppends(t.ledger, ApplyTo(e, t.ledger, a, trigger, ans).rows, since);
  }

  lemma {:induction false} TickAgrees(e: Engine, cap: int, trigger: TickTrigger, ledger: Ledger, rows: Table,
                   list: seq<Suggestion>, answers: seq<AutoClean.Answers>, n: nat, since: int)
    requires n <= |list| && n <= |answers| && forall ans :: ans in answers ==> since <= ans.now
    ensures Agrees(CleanUpTo(e, cap, trigger, Start(ledger, rows), list, answers, n), ledger, since)
  {
    hide HandOver;
    if n > 0 {
      TickAgrees(e, cap, trigger, ledger, rows, list, answers, n - 1, since);
      var t := CleanUpTo(e, cap, trigger, Start(ledger, rows), list, answers, n - 1);
      HandOverAgrees(e, t, ActionOf(list[n - 1]), trigger, answers[n - 1], ledger, since);
    }
  }

  lemma {:induction false} NothingLost(e: Engine, cap: int, trigger: TickTrigger, ledger: Ledger, rows: Table,
                    list: seq<Suggestion>, answers: seq<AutoClean.Answers>, n: nat)
    requires n <= |list| && n <= |answers| && forall ans :: ans in answers ==> !ans.updateErr
    ensures var t := CleanUpTo(e, cap, trigger, Start(ledger, rows), list, answers, n);
            t.lost == 0 && t.silent == 0 && t.silentFreed == 0
  {
    hide ApplyTo;
    if n > 0 {
      NothingLost(e, cap, trigger, ledger, rows, list, answers, n - 1);
      assert answers[n - 1] in answers;
    }
  }

  /** When every closing update reaches the store, no row of the tick is left in progress and the
      pair a tick returns is the change of the roll-up, failed deletes included. */
  lemma LedgerAgreesWithReport(e: Engine, cap: int, trigger: TickTrigger, ledger: Ledger, rows: Table,
                               list: seq<Suggestion>, answers: seq<AutoClean.Answers>, since: int)
    requires |answers| == |list| && forall ans :: ans in answers ==> since <= ans.now && !ans.updateErr
    ensures var t := CleanUpTo(e, cap, trigger, Start(ledger, rows), list, answers, |list|);
            && DeletedSince(t.ledger, since) == DeletedSince(ledger, since) + t.deleted
            && FreedSince(t.ledger, since) == FreedSince(ledger, since) + t.freed
            && Stranded(t.ledger) == Stranded(ledger)
  {
    TickAgrees(e, cap, trigger, ledger, rows, list, answers, |list|, since);
    NothingLost(e, cap, trigger, ledger, rows, list, answers, |list|);
  }

  /** A row is left in progress exactly when the update that closes some delete is lost, and the
      roll-up misses a reported delete exactly when the lost update is that of a success. */
  lemma StrandedIffUpdateLost(e: Engine, cap: int, trigger: TickTrigger, ledger: Ledger, rows: Table,
                              list: seq<Suggestion>, answers: seq<AutoClean.Answers>, since: int)
    requires |answers| == |list| && forall ans :: ans in answers ==> since <= ans.now
    ensures var t := CleanUpTo(e, cap, trigger, Start(ledger, rows), list, answers, |list|);
            && (Stranded(t.ledger) == Stranded(ledger) <==> t.lost == 0)
            && (DeletedSince(t.ledger, since) == DeletedSince(ledger, since) + t.deleted <==> t.silent == 0)
  {
    TickAgrees(e, cap, trigger, ledger, rows, list, answers, |list|, since);
  }

  predicate OpenFor(row: Event, c: DeleterCall) {
    row.outcome == InProgress && row.target == c.target && row.module_ == c.module_
  }

  /** The deleter is called with its own row open: the newest row of the table at that moment is in
      progress and names this very target, after the guard agreed. */
  predicate Audited(e: Engine, c: DeleterCall) {
    && c.ledger != [] && OpenFor(c.ledger[|c.ledger| - 1], c)
    && c.module_ in e.deleters && c.module_ in e.cfg.modulesAllowed
    && (SelfProving(c.module_) || UnderAnyRoot(c.target, e.roots))
  }

  /** Every delete of a tick is audited, each with a row of its own that none before it had. */
  lemma {:induction false} EveryDeleteIsAudited(e: Engine, cap: int, trigger: TickTrigger, ledger: Ledger, rows: Table,
                             list: seq<Suggestion>, answers: seq<AutoClean.Answers>, n: nat)
    requires n <= |list| && n <= |answers|
    ensures var t := CleanUpTo(e, cap, trigger, Start(ledger, rows), list, answers, n);
            && |ledger| <= |t.ledger|
            && (forall i :: 0 <= i < |t.calls| ==> Audited(e, t.calls[i]) && |ledger| < |t.calls[i].ledger| <= |t.ledger|)
            && (forall i, j :: 0 <= i < j < |t.calls| ==> |t.calls[i].ledger| < |t.calls[j].ledger|)
            && (trigger == Pressure ==> t.calls == [] && t.ledger == ledger && t.deleted == 0)
  {
    hide HandOver, Audited;
    if n > 0 {
      EveryDeleteIsAudited(e, cap, trigger, ledger, rows, list, answers, n - 1);
      var t := CleanUpTo(e, cap, trigger, Start(ledger, rows), list, answers, n - 1);
      HandOverIsAudited(e, t, ActionOf(list[n - 1]), trigger, answers[n - 1]);
      var t' := CleanUpTo(e, cap, trigger, Start(ledger, rows), list, answers, n);
      forall i | 0 <= i < |t'.calls|
        ensures Audited(e, t'.calls[i]) && |ledger| < |t'.calls[i].ledger| <= |t'.ledger|
        ensures forall j :: 0 <= j < i ==> |t'.calls[j].ledger| < |t'.calls[i].ledger|
      {
        assert forall j :: 0 <= j < |t.calls| ==> t'.calls[j] == t.calls[j];
        if i == |t.calls| {
          assert |ledger| <= |t.ledger|;
        }
      }
    }
  }

  lemma HandOverIsAudited(e: Engine, t: Tally, a: Action, trigger: TickTrigger, ans: AutoClean.Answers)
    ensures var t' := HandOver(e, t, a, trigger, ans);
            && |t.ledger| <= |t'.ledger|
            && (t'.calls == t.calls ||
                (|t'.ledger| == |t.ledger| + 1 && |t'.calls| == |t.calls| + 1 && t'.calls[..|t.calls|] == t.calls
                && Audited(e, t'.calls[|t.calls|]) && |t'.calls[|t.calls|].ledger| == |t'.ledger|))
            && (trigger == Pressure ==> t'.calls == t.calls && t'.ledger == t.ledger && t'.deleted == t.deleted)
  {
    var done := ApplyTo(e, t.ledger, a, trigger, ans);
    if done.calls != [] {
      var c := done.calls[0];
      assert done.calls == [c] && Audited(e, c);
    } else {
      assert t.calls + done.calls == t.calls;
    }
    assert trigger == Pressure ==> t.ledger + done.rows == t.ledger;
  }

  // ---- Which deletes happen ----

  /** Component by component below one of the roots, not starting with two dots; no roots, no wall. */
  ghost predicate WithinRoots(p: Path, roots: seq<Path>) {
    || roots == []
    || exists r :: r in roots && |r| < |p| && r <= p
                   && !(|p[|r|]| >= 2 && p[|r|][0] == '.' && p[|r|][1] == '.')
  }

  lemma WithinRootsIff(p: Path, roots: seq<Path>)
    ensures UnderAnyRoot(p, roots) <==> WithinRoots(p, roots)
  {
    forall r | r in roots
      ensures UnderRoot(p, r) <==> |r| < |p| && r <= p && !(|p[|r|]| >= 2 && p[|r|][0] == '.' && p[|r|][1] == '.')
    {
      if |r| < |p| && |p[|r|]| >= 2 {
        assert p[|r|][..2] == ".." <==> p[|r|][0] == '.' && p[|r|][1] == '.';
      }
    }
  }

  /** What a delete needs at delete time: an allowed module with a deleter, which proves its targets
      itself or whose target is within the roots and which the core check lets go. */
  ghost predicate MayDelete(e: Engine, s: Suggestion, canDelete: bool) {
    && s.module_ in e.cfg.modulesAllowed && s.module_ in e.deleters
    && (s.module_ in {"leaks", "worktrees"} ||
        (WithinRoots(s.target, e.roots) && (e.safetyOn ==> canDelete)))
  }

  lemma GuardedIff(e: Engine, s: Suggestion, canDelete: bool)
    ensures Guarded(e, ActionOf(s), canDelete) <==> MayDelete(e, s, canDelete)
  {
    hide UnderAnyRoot, WithinRoots;
    WithinRootsIff(s.target, e.roots);
  }

  /** The suggestion is deleted when its turn comes. */
  ghost predicate Deletes(e: Engine, trigger: TickTrigger, s: Suggestion, ans: AutoClean.Answers) {
    trigger in {Daily, Manual} && MayDelete(e, s, ans.canDelete) && !ans.recordErr
  }

  function RowOf(s: Suggestion, trigger: TickTrigger, startedAt: int, endedAt: int, outcome: AuditLedger.Outcome,
                 skipReason: string, freed: int): Event {
    Event(startedAt, endedAt, trigger, outcome, skipReason, s.target, s.module_, SuggestionSize(s), freed, SuggestionIdleDays(s), s.id)
  }

  /** One turn of a tick, spelled out: whether the deleter is called and sees its row open, the row
      that stays, what is counted, and which row of the suggestions is dismissed. */
  lemma TurnIs(e: Engine, cap: int, trigger: TickTrigger, ledger: Ledger, rows: Table,
               list: seq<Suggestion>, answers: seq<AutoClean.Answers>, k: nat)
    requires k < |list| && k < |answers|
    ensures var s, ans := list[k], answers[k];
            var b := CleanUpTo(e, cap, trigger, Start(ledger, rows), list, answers, k);
            var a := CleanUpTo(e, cap, trigger, Start(ledger, rows), list, answers, k + 1);
            if a.handed == b.handed then a.calls == b.calls && a.ledger == b.ledger && a.rows == b.rows && a.deleted == b.deleted && a.freed == b.freed
            else
              && |a.handed| == |b.handed| + 1
              && a.calls == b.calls +
                 (if Deletes(e, trigger, s, ans)
                  then [DeleterCall(s.module_, s.target, b.ledger + [RowOf(s, trigger, ans.now, 0, InProgress, "", 0)])] else [])
              && a.ledger == b.ledger +
                 (if trigger == Pressure || ans.recordErr then []
                  else if !MayDelete(e, s, ans.canDelete) then [RowOf(s, trigger, ans.now, ans.now, Skipped, "safety_guard", 0)]
                  else if ans.updateErr then [RowOf(s, trigger, ans.now, 0, InProgress, "", 0)]
                  else [RowOf(s, trigger, ans.now, ans.endedAt, if ans.deleteErr then Errored else Deleted, "", ans.freed)])
              && a.deleted == b.deleted + (if Deletes(e, trigger, s, ans) && !ans.deleteErr then 1 else 0)
              && a.freed == b.freed + (if Deletes(e, trigger, s, ans) && !ans.deleteErr then ans.freed else 0)
              && a.rows == (if Deletes(e, trigger, s, ans) && !ans.deleteErr && !ans.dismissErr && 1 <= s.id <= |b.rows|
                            then b.rows[s.id - 1 := Row(b.rows[s.id - 1].ts, b.rows[s.id - 1].key, b.rows[s.id - 1].reason, Some(ans.dismissedAt))]
                            else b.rows)
  {
    hide Guarded, MayDelete, Blocked, Accepts;
    GuardedIff(e, list[k], answers[k].canDelete);
  }

  /** The turn at which a suggestion was handed over. */
  ghost predicate HandedAt(e: Engine, cap: int, trigger: TickTrigger, ledger: Ledger, rows: Table,
                           list: seq<Suggestion>, answers: seq<AutoClean.Answers>, k: nat)
    requires k < |list| && k < |answers|
  {
    CleanUpTo(e, cap, trigger, Start(ledger, rows), list, answers, k).handed
    != CleanUpTo(e, cap, trigger, Start(ledger, rows), list, answers, k + 1).handed
  }

  ghost predicate CallFrom(e: Engine, trigger: TickTrigger, list: seq<Suggestion>, answers: seq<AutoClean.Answers>, k: nat, c: DeleterCall)
    requires k < |list| && k < |answers|
  {
    c.module_ == list[k].module_ && c.target == list[k].target && Deletes(e, trigger, list[k], answers[k])
  }

  /** Every deleter call of a tick is for a suggestion that was handed over and that, by the answers at
      its own delete, proves itself or is within the roots with the core check agreeing. */
  lemma {:induction false} EveryDeleteIsAllowed(e: Engine, cap: int, trigger: TickTrigger, ledger: Ledger, rows: Table,
                                                list: seq<Suggestion>, answers: seq<AutoClean.Answers>, n: nat, i: nat)
    requires n <= |list| && n <= |answers|
    requires i < |CleanUpTo(e, cap, trigger, Start(ledger, rows), list, answers, n).calls|
    ensures var c := CleanUpTo(e, cap, trigger, Start(ledger, rows), list, answers, n).calls[i];
            exists k :: 0 <= k < n && HandedAt(e, cap, trigger, ledger, rows, list, answers, k) && CallFrom(e, trigger, list, answers, k, c)
    decreases n
  {
    hide CleanUpTo, Deletes;
    if n == 0 {
      AtStart(e, cap, trigger, Start(ledger, rows), list, answers);
    } else {
      TurnIs(e, cap, trigger, ledger, rows, list, answers, n - 1);
      if i < |CleanUpTo(e, cap, trigger, Start(ledger, rows), list, answers, n - 1).calls| {
        EveryDeleteIsAllowed(e, cap, trigger, ledger, rows, list, answers, n - 1, i);
      } else {
        assert HandedAt(e, cap, trigger, ledger, rows, list, answers, n - 1);
      }
    }
  }

  lemma AtStart(e: Engine, cap: int, trigger: TickTrigger, t: Tally, list: seq<Suggestion>, answers: seq<AutoClean.Answers>)
    ensures CleanUpTo(e, cap, trigger, t, list, answers, 0) == t
  {
  }

  /** And every suggestion handed over that meets these conditions is deleted, with its row recorded. */
  lemma {:induction false} EveryAllowedIsDeleted(e: Engine, cap: int, trigger: TickTrigger, ledger: Ledger, rows: Table,
                                                 list: seq<Suggestion>, answers: seq<AutoClean.Answers>, n: nat, k: nat)
    requires k < n <= |list| && n <= |answers|
    requires HandedAt(e, cap, trigger, ledger, rows, list, answers, k) && Deletes(e, trigger, list[k], answers[k])
    ensures exists c :: c in CleanUpTo(e, cap, trigger, Start(ledger, rows), list, answers, n).calls
                        && c.module_ == list[k].module_ && c.target == list[k].target
    decreases n
  {
    hide CleanUpTo, Deletes;
    TurnIs(e, cap, trigger, ledger, rows, list, answers, n - 1);
    var b := CleanUpTo(e, cap, trigger, Start(ledger, rows), list, answers, n - 1);
    var a := CleanUpTo(e, cap, trigger, Start(ledger, rows), list, answers, n);
    if k == n - 1 {
      assert a.calls[|b.calls|] in a.calls;
    } else {
      EveryAllowedIsDeleted(e, cap, trigger, ledger, rows, list, answers, n - 1, k);
      var c :| c in b.calls && c.module_ == list[k].module_ && c.target == list[k].target;
      assert c in a.calls;
    }
  }

  /** A row of the suggestions that a tick changes is that of a suggestion it deleted, and is dismissed. */
  lemma {:induction false} OnlyDeletedAreDismissed(e: Engine, cap: int, trigger: TickTrigger, ledger: Ledger, rows: Table,
                                                   list: seq<Suggestion>, answers: seq<AutoClean.Answers>, n: nat, id: nat)
    requires n <= |list| && n <= |answers| && 1 <= id <= |rows|
    ensures var after := CleanUpTo(e, cap, trigger, Start(ledger, rows), list, answers, n).rows;
            && |after| == |rows|
            && after[id - 1].key == rows[id - 1].key
            && (after[id - 1] != rows[id - 1] ==>
                  && after[id - 1].dismissedAt.Some?
                  && exists k :: 0 <= k < n && HandedAt(e, cap, trigger, ledger, rows, list, answers, k) && list[k].id == id
                                 && Deletes(e, trigger, list[k], answers[k]) && !answers[k].deleteErr)
    decreases n
  {
    hide CleanUpTo, Deletes;
    if n == 0 {
      AtStart(e, cap, trigger, Start(ledger, rows), list, answers);
    } else {
      OnlyDeletedAreDismissed(e, cap, trigger, ledger, rows, list, answers, n - 1, id);
      TurnIs(e, cap, trigger, ledger, rows, list, answers, n - 1);
      var b := CleanUpTo(e, cap, trigger, Start(ledger, rows), list, answers, n - 1);
      var a := CleanUpTo(e, cap, trigger, Start(ledger, rows), list, answers, n);
      if a.rows[id - 1] != b.rows[id - 1] {
        assert HandedAt(e, cap, trigger, ledger, rows, list, answers, n - 1) && list[n - 1].id == id;
      }
    }
  }
}
