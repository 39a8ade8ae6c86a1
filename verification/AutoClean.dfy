/** Unattended deletes: each is guarded, written to the audit table before it happens and closed
    after, and a tick hands over what the gates pass until its budget refuses one. */
module AutoClean {
  import opened Options
  import opened AuditLedger
  import opened AutoCleanGates
  import opened Suggestions
  import opened Triggers

  /** Fixed once built; `safetyOn` is whether a core safety check is wired in. */
  datatype Engine = Engine(cfg: Config, roots: seq<Path>, safetyOn: bool, deleters: set<string>)

  /** What the outside answers while one action is applied. */
  datatype Answers = Answers(
    now: int, canDelete: bool, recordErr: bool, deleteErr: bool, freed: int,
    endedAt: int, updateErr: bool, dismissErr: bool, dismissedAt: int)

  datatype Refusal = WrongTrigger | Unsafe | AuditFailed | DeleteFailed

  datatype Result = Done(freed: int) | Refused(why: Refusal)

  /** One call of a deleter and the audit table at that moment. */
  datatype DeleterCall = DeleterCall(module_: string, target: Path, ledger: Ledger)

  /** The modules' deleters, foreign to this model: they answer whatever they answer. */
  class Deleters {
    ghost var calls: seq<DeleterCall>

    constructor ()
      ensures calls == []
    {
      calls := [];
    }

    method Delete(module_: string, target: Path, audit: Audit, answer: Answers) returns (freed: int, ok: bool)
      modifies this
      ensures calls == old(calls) + [DeleterCall(module_, target, audit.events)]
      ensures freed == answer.freed && ok == !answer.deleteErr
    {
      calls := calls + [DeleterCall(module_, target, audit.events)];
      return answer.freed, !answer.deleteErr;
    }
  }

  // ---- The guard ----

  /** Seen from the root the path does not start with ".." and is not the root itself. */
  predicate UnderRoot(p: Path, root: Path) {
    |root| < |p| && p[..|root|] == root && !(|p[|root|]| >= 2 && p[|root|][..2] == "..")
  }

  predicate UnderAnyRoot(p: Path, roots: seq<Path>) {
    roots == [] || exists r :: r in roots && UnderRoot(p, r)
  }

  predicate Guarded(e: Engine, a: Action, canDelete: bool) {
    && (SelfProving(a.module_) || UnderAnyRoot(a.target, e.roots))
    && a.module_ in e.cfg.modulesAllowed
    && (SelfProving(a.module_) || !e.safetyOn || canDelete)
    && a.module_ in e.deleters
  }

  method CheckRoots(p: Path, roots: seq<Path>) returns (ok: bool)
    ensures ok == UnderAnyRoot(p, roots)
  {
    if |roots| == 0 {
      return true;
    }
    for i := 0 to |roots|
      invariant forall j :: 0 <= j < i ==> !UnderRoot(p, roots[j])
    {
      if UnderRoot(p, roots[i]) {
        return true;
      }
    }
    return false;
  }

  method SafetyGuard(e: Engine, a: Action, canDelete: bool) returns (ok: bool)
    ensures ok == Guarded(e, a, canDelete)
  {
    var selfGuarded := SelfProving(a.module_);
    if !selfGuarded {
      var under := CheckRoots(a.target, e.roots);
      if !under {
        return false;
      }
    }
    var allowed := ModuleAllowed(e.cfg.modulesAllowed, a.module_);
    if !allowed {
      return false;
    }
    if !selfGuarded && e.safetyOn && !canDelete {
      return false;
    }
    return a.module_ in e.deleters;
  }

  // ---- One action ----

  function NewEvent(a: Action, trigger: TickTrigger, now: int, outcome: AuditLedger.Outcome): Event {
    Event(now, if outcome == Skipped then now else 0, trigger, outcome,
          if outcome == Skipped then "safety_guard" else "", a.target, a.module_, a.sizeBytes, 0, a.idleDays, a.suggestionId)
  }

  /** The row of a delete once its end is written. */
  function ClosedEvent(a: Action, trigger: TickTrigger, ans: Answers): Event {
    NewEvent(a, trigger, ans.now, InProgress).(
      endedAt := ans.endedAt, outcome := if ans.deleteErr then Errored else Deleted, freed := ans.freed)
  }

  /** The end of an applied action: its result, the rows it added, and its deleter calls. */
  datatype Applied = Applied(result: Result, rows: seq<Event>, calls: seq<DeleterCall>)

  function ApplyTo(e: Engine, ledger: Ledger, a: Action, trigger: TickTrigger, ans: Answers): Applied {
    if trigger == Pressure then Applied(Refused(WrongTrigger), [], [])
    else if !Guarded(e, a, ans.canDelete) then
      Applied(Refused(Unsafe), if ans.recordErr then [] else [NewEvent(a, trigger, ans.now, Skipped)], [])
    else if ans.recordErr then Applied(Refused(AuditFailed), [], [])
    else
      var open := NewEvent(a, trigger, ans.now, InProgress);
      Applied(if ans.deleteErr then Refused(DeleteFailed) else Done(ans.freed),
              [if ans.updateErr then open else ClosedEvent(a, trigger, ans)],
              [DeleterCall(a.module_, a.target, ledger + [open])])
  }

  method Apply(e: Engine, audit: Audit, deleters: Deleters, a: Action, trigger: TickTrigger, ans: Answers) returns (r: Result)
    modifies audit, deleters
    ensures var done := ApplyTo(e, old(audit.events), a, trigger, ans);
            && r == done.result
            && audit.events == old(audit.events) + done.rows
            && deleters.calls == old(deleters.calls) + done.calls
  {
    if trigger != Daily && trigger != Manual {
      return Refused(WrongTrigger);
    }
    var safe := SafetyGuard(e, a, ans.canDelete);
    if !safe {
      var _ := audit.Record(NewEvent(a, trigger, ans.now, Skipped), ans.recordErr);
      return Refused(Unsafe);
    }
    // The row before the delete: what a crash in the middle leaves behind.
    var row := audit.Record(NewEvent(a, trigger, ans.now, InProgress), ans.recordErr);
    if row.None? {
      return Refused(AuditFailed);
    }
    var freed, ok := deleters.Delete(a.module_, a.target, audit, ans);
    audit.Update(row.value, EventUpdate(ans.endedAt, if ok then Deleted else Errored, freed), ans.updateErr);
    if !ok {
      return Refused(DeleteFailed);
    }
    return Done(freed);
  }

  // ---- One tick's deletes ----

  /** Where a tick's deletes stand. `lost` counts deletes whose closing update failed, `silent` and
      `silentFreed` the successful ones among them. */
  datatype Tally = Tally(
    ledger: Ledger, rows: Table, calls: seq<DeleterCall>, handed: seq<Action>, used: int, halted: bool,
    freed: int, deleted: nat, lost: nat, silent: nat, silentFreed: int)

  function Start(ledger: Ledger, rows: Table): Tally {
    Tally(ledger, rows, [], [], 0, false, 0, 0, 0, 0, 0)
  }

  function HandOver(e: Engine, t: Tally, a: Action, trigger: TickTrigger, ans: Answers): Tally {
    var done := ApplyTo(e, t.ledger, a, trigger, ans);
    var missed := if done.calls != [] && ans.updateErr then 1 else 0;
    var t' := t.(ledger := t.ledger + done.rows, calls := t.calls + done.calls, handed := t.handed + [a],
                 used := Wrap(t.used + a.sizeBytes), lost := t.lost + missed);
    match done.result
    case Refused(_) => t'
    case Done(freed) =>
      t'.(freed := t.freed + freed, deleted := t.deleted + 1,
          rows := if ans.dismissErr then t.rows else Dismissed(t.rows, a.suggestionId, ans.dismissedAt),
          silent := t.silent + missed, silentFreed := t.silentFreed + if missed == 1 then freed else 0)
  }

  function CleanOne(e: Engine, cap: int, trigger: TickTrigger, t: Tally, s: Suggestion, ans: Answers): Tally {
    if t.halted || Blocked(s, e.cfg).Some? then t
    else if !Accepts(cap, t.used, SuggestionSize(s)) then t.(halted := true)
    else HandOver(e, t, ActionOf(s), trigger, ans)
  }

  function CleanUpTo(e: Engine, cap: int, trigger: TickTrigger, t: Tally, list: seq<Suggestion>, answers: seq<Answers>, n: nat): Tally
    requires n <= |list| && n <= |answers|
  {
    if n == 0 then t
    else CleanOne(e, cap, trigger, CleanUpTo(e, cap, trigger, t, list, answers, n - 1), list[n - 1], answers[n - 1])
  }

  lemma {:induction false} HaltedStays(e: Engine, cap: int, trigger: TickTrigger, t: Tally, list: seq<Suggestion>, answers: seq<Answers>, k: nat, n: nat)
    requires k <= n <= |list| && n <= |answers| && CleanUpTo(e, cap, trigger, t, list, answers, k).halted
    ensures CleanUpTo(e, cap, trigger, t, list, answers, n) == CleanUpTo(e, cap, trigger, t, list, answers, k)
  {
    hide HandOver;
    if k < n {
      HaltedStays(e, cap, trigger, t, list, answers, k, n - 1);
    }
  }

  method RunAutoClean(e: Engine, audit: Audit, table: SuggestionTable, deleters: Deleters,
                      list: seq<Suggestion>, trigger: TickTrigger, answers: seq<Answers>)
    returns (freed: int, deleted: nat, handed: seq<Action>)
    requires |answers| == |list|
    modifies audit, table, deleters
    ensures var end := CleanUpTo(e, CapBytes(e.cfg.sizeCapPerTickGB), trigger, Start(old(audit.events), old(table.rows)), list, answers, |list|);
            && freed == end.freed && deleted == end.deleted && handed == end.handed
            && audit.events == end.ledger && table.rows == end.rows
            && deleters.calls == old(deleters.calls) + end.calls
  {
    hide ApplyTo, Blocked, Accepts;
    var budget := new Budget(e.cfg.sizeCapPerTickGB);
    freed, deleted, handed := 0, 0, [];
    ghost var start, was := Start(audit.events, table.rows), deleters.calls;
    ghost var t := start;
    for i := 0 to |list|
      invariant t == CleanUpTo(e, budget.capBytes, trigger, start, list, answers, i) && !t.halted
      invariant budget.usedBytes == t.used && freed == t.freed && deleted == t.deleted && handed == t.handed
      invariant audit.events == t.ledger && table.rows == t.rows && deleters.calls == was + t.calls
    {
      var s, ans := list[i], answers[i];
      var action, skip := EvaluateSuggestion(s, e.cfg);
      if skip.Some? {
        continue;
      }
      var fits := budget.Take(action.sizeBytes);
      if !fits {
        t := CleanUpTo(e, budget.capBytes, trigger, start, list, answers, i + 1);
        HaltedStays(e, budget.capBytes, trigger, start, list, answers, i + 1, |list|);
        return;
      }
      handed := handed + [action];
      var r := Apply(e, audit, deleters, action, trigger, ans);
      assert was + t.calls + ApplyTo(e, t.ledger, action, trigger, ans).calls == was + (t.calls + ApplyTo(e, t.ledger, action, trigger, ans).calls);
      if r.Done? {
        freed := freed + r.freed;
        deleted := deleted + 1;
        if !ans.dismissErr {
          table.Dismiss(s.id, ans.dismissedAt);
        }
      }
      t := CleanOne(e, budget.capBytes, trigger, t, s, ans);
    }
  }
}
