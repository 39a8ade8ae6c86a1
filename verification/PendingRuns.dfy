/** Re-checking queued relocations: every gate fresh, then a two-phase apply around the relocation
    itself, within a budget of applies. */
module PendingRuns {
  import opened Options
  import opened FileSystem
  import opened Relocation
  import opened RelocQueue
  import opened Triggers

  datatype Outcome = OutApplied | OutBlocked | OutSkippedBudget

  /** `unrecorded`: the row update that belongs to this outcome failed. */
  datatype PendingResult = PendingResult(
    entry: QueueEntry, outcome: Outcome, attempted: bool, freed: nat, failure: Option<Failure>, unrecorded: bool)

  /** What the gates of one re-check see; the apply probes everything again on its own. */
  datatype GateAnswers = GateAnswers(
    sourceStatErr: bool, live: bool, process: Process, guardOk: bool, destStatErr: bool)

  /** Everything the outside decides about one entry: whether the run is told to stop before it,
      what the gates and the apply see, whether another process cancels the row before the
      mark or before the outcome is written, and whether the store calls fail. */
  datatype EntryAnswers = EntryAnswers(
    stop: bool, gates: GateAnswers, os: Answers,
    cancelBeforeMark: bool, markErr: bool, cancelBeforeResolve: bool, resolveErr: bool,
    markAt: int, resolvedAt: int, cancelledAt: int)

  /** A cancel from the command line. */
  function Cancelling(at: int): Resolution {
    Resolution(Cancelled, "", 0, at)
  }

  function Join(dir: Path, name: string): Path {
    if dir == "/" then dir + name else dir + "/" + name
  }

  function DestOf(e: QueueEntry): Path {
    Join(e.row.request.destRoot, e.row.request.assetId)
  }

  function ActionOf(e: QueueEntry): Action {
    Action(OpRelocate, e.row.request.target, DestOf(e))
  }

  /** The first gate that blocks an entry, if any. */
  function GateBlock(m: Mover, e: QueueEntry, g: GateAnswers, st: Snapshot): Option<string> {
    var q := e.row.request;
    if q.destRoot != m.cfg.destRoot || q.destVolumeUUID != m.cfg.destVolumeUUID then Some("destination changed since queued")
    else match PlaybookFor(m.playbooks, q.target)
      case None => Some("no longer a known playbook asset")
      case Some(pb) =>
        if pb.class_ != Relocatable then Some("not relocatable by file move")
        else if !(q.target in st && !g.sourceStatErr && st[q.target].Tree?) then Some("source missing or no longer a real directory")
        else match GateFailure(pb, g.live, g.process)
          case Some(why) => Some(if why == StopGate then "still in use" else "stop-gate check failed")
          case None =>
            if !g.guardOk then Some("destination refused")
            else if DestOf(e) in st && !g.destStatErr then Some("destination already exists")
            else None
  }

  // ---- One entry as a function ----

  /** One re-check: its result, the queue after it, the disk states it passed through, the writes
      to the queue, ordered among those states, and the applies charged so far. */
  datatype Step = Step(result: PendingResult, table: Table, states: seq<Snapshot>, writes: seq<Write>, charged: nat)

  /** The table after a call that may be refused, and what it wrote when `after` states had passed. */
  function Written(t: Table, outcome: Option<Table>, after: nat): (Table, seq<Write>) {
    match outcome
    case Some(t') => (t', [Write(after, t')])
    case None => (t, [])
  }

  /** Another process cancels the row; a row that is not pending refuses. */
  function CancelledElsewhere(t: Table, id: nat, happens: bool, at: int): Option<Table> {
    if happens then Resolved(t, id, Cancelling(at)) else None
  }

  function ResolveUnless(t: Table, id: nat, r: Resolution, storeErr: bool): Option<Table> {
    if storeErr then None else Resolved(t, id, r)
  }

  /** The last part of a re-check: its outcome is written, perhaps after another process cancelled
      the row. */
  function Concluded(result: PendingResult, ans: EntryAnswers, t: Table, r: Resolution,
                     states: seq<Snapshot>, before: seq<Write>, charged: nat): (s: Step)
    ensures s.states == states && s.charged == charged && s.result == result.(unrecorded := s.result.unrecorded)
  {
    var (t1, cancelled) := Written(t, CancelledElsewhere(t, result.entry.id, ans.cancelBeforeResolve, ans.cancelledAt), |states|);
    var resolved := ResolveUnless(t1, result.entry.id, r, ans.resolveErr);
    var (t2, written) := Written(t1, resolved, |states|);
    Step(result.(unrecorded := resolved.None?), t2, states, before + cancelled + written, charged)
  }

  function ApplyStep(m: Mover, e: QueueEntry, ans: EntryAnswers, t: Table, st: Snapshot, before: seq<Write>, charged: nat): Step {
    var run := Relocate(m, ActionOf(e), ans.os, st);
    match run.result
    case Failed(why) =>
      Concluded(PendingResult(e, OutBlocked, true, 0, Some(why), false), ans, t,
                Resolution(Blocked, "apply failed", 0, 0), run.states, before, charged)
    case Moved(freed) =>
      Concluded(PendingResult(e, OutApplied, true, freed, None, false), ans, t,
                Resolution(Applied, "", freed, ans.resolvedAt), run.states, before, charged)
  }

  function Recheck(m: Mover, e: QueueEntry, ans: EntryAnswers, budget: int, charged: nat, t: Table, st: Snapshot): Step {
    match GateBlock(m, e, ans.gates, st)
    case Some(why) =>
      Concluded(PendingResult(e, OutBlocked, false, 0, None, false), ans, t, Resolution(Blocked, why, 0, 0), [], [], charged)
    case None =>
      if budget >= 0 && charged >= budget then
        Step(PendingResult(e, OutSkippedBudget, false, 0, None, false), t, [], [], charged)
      else
        var (t1, cancelled) := Written(t, CancelledElsewhere(t, e.id, ans.cancelBeforeMark, ans.cancelledAt), 0);
        var marked := if ans.markErr then None else Marked(t1, e.id, ans.markAt);
        var (t2, written) := Written(t1, marked, 0);
        if marked.None? then
          Step(PendingResult(e, OutBlocked, false, 0, None, true), t1, [], cancelled, charged + 1)
        else
          ApplyStep(m, e, ans, t2, st, cancelled + written, charged + 1)
  }

  /** What a run has to show so far: applies charged, results, queue, disk, every state the disk
      passed through, and the writes to the queue ordered among them. */
  datatype Standing = Standing(
    charged: nat, results: seq<PendingResult>, table: Table, disk: Snapshot, states: seq<Snapshot>, writes: seq<Write>)

  /** The same writes when `n` more states had passed before them. */
  function Later(writes: seq<Write>, n: nat): (later: seq<Write>)
    ensures |later| == |writes|
  {
    seq(|writes|, i requires 0 <= i < |writes| => Write(writes[i].after + n, writes[i].rows))
  }

  lemma LaterTwice(a: seq<Write>, b: seq<Write>, m: nat, n: nat)
    ensures Later(a + Later(b, m), n) == Later(a, n) + Later(b, m + n)
    ensures Later(a, 0) == a
  {
  }

  function Advanced(now: Standing, s: Step): Standing {
    Standing(s.charged, now.results + [s.result], s.table, Last(now.disk, s.states), now.states + s.states,
             now.writes + Later(s.writes, |now.states|))
  }

  /** The re-check of entry `n`, from where the run stands before it. */
  function StepAt(m: Mover, listed: seq<QueueEntry>, answers: seq<EntryAnswers>, budget: int, now: Standing, n: nat): Step
    requires n < |listed| && n < |answers|
  {
    Recheck(m, listed[n], answers[n], budget, now.charged, now.table, now.disk)
  }

  /** Where a run over `listed` that starts with the queue `t` and the disk `st` stands after `n`
      entries. */
  function StandingAt(m: Mover, listed: seq<QueueEntry>, answers: seq<EntryAnswers>, budget: int,
                      t: Table, st: Snapshot, n: nat): (now: Standing)
    requires n <= |listed| && n <= |answers|
    ensures |now.results| == n
  {
    if n == 0 then Standing(0, [], t, st, [], [])
    else
      var before := StandingAt(m, listed, answers, budget, t, st, n - 1);
      Advanced(before, StepAt(m, listed, answers, budget, before, n - 1))
  }

  /** How many entries a run reaches before it is told to stop. */
  function Reached(answers: seq<EntryAnswers>): (n: nat)
    ensures n <= |answers|
  {
    if answers == [] || answers[0].stop then 0 else 1 + Reached(answers[1..])
  }

  // ---- The run itself ----

  method CancelElsewhere(qs: RelocationQueue, id: nat, happens: bool, at: int)
    modifies qs
    ensures var (t, written) := Written(old(qs.rows), CancelledElsewhere(old(qs.rows), id, happens, at), |qs.disk.trail|);
            qs.rows == t && qs.writes == old(qs.writes) + written
  {
    if happens {
      var _ := qs.Resolve(id, Cancelling(at));
    } else {
      assert qs.writes + [] == qs.writes;
    }
  }

  method ResolveRow(qs: RelocationQueue, id: nat, r: Resolution, storeErr: bool) returns (ok: bool)
    modifies qs
    ensures var resolved := ResolveUnless(old(qs.rows), id, r, storeErr);
            var (t, written) := Written(old(qs.rows), resolved, |qs.disk.trail|);
            ok == resolved.Some? && qs.rows == t && qs.writes == old(qs.writes) + written
  {
    if storeErr {
      assert qs.writes + [] == qs.writes;
      return false;
    }
    ok := qs.Resolve(id, r);
  }

  method RecheckGates(m: Mover, e: QueueEntry, g: GateAnswers, disk: Disk) returns (why: Option<string>)
    ensures why == GateBlock(m, e, g, disk.entries)
  {
    var q := e.row.request;
    if q.destRoot != m.cfg.destRoot || q.destVolumeUUID != m.cfg.destVolumeUUID {
      return Some("destination changed since queued");
    }
    var pb := FindPlaybook(m, q.target);
    if pb.None? {
      return Some("no longer a known playbook asset");
    }
    if pb.value.class_ != Relocatable {
      return Some("not relocatable by file move");
    }
    if !disk.Lstat(q.target, g.sourceStatErr) || !disk.entries[q.target].Tree? {
      return Some("source missing or no longer a real directory");
    }
    if pb.value.gate == PathGate {
      if g.live {
        return Some("still in use");
      }
    } else if pb.value.stopGate != "" {
      if g.process == Unknown {
        return Some("stop-gate check failed");
      }
      if g.process == Running {
        return Some("still in use");
      }
    }
    if !g.guardOk {
      return Some("destination refused");
    }
    if disk.Lstat(DestOf(e), g.destStatErr) {
      return Some("destination already exists");
    }
    return None;
  }

  /** Writes the outcome of a re-check that passed through `states` since the disk's trail was `trail`
      long and the queue's writes were `writes`. */
  method Conclude(qs: RelocationQueue, result: PendingResult, r: Resolution, ans: EntryAnswers,
                  ghost states: seq<Snapshot>, ghost before: seq<Write>, ghost charged: nat,
                  ghost trail: nat, ghost writes: seq<Write>)
    returns (result': PendingResult)
    requires |qs.disk.trail| == trail + |states| && qs.writes == writes + Later(before, trail)
    modifies qs
    ensures var s := Concluded(result, ans, old(qs.rows), r, states, before, charged);
            result' == s.result && qs.rows == s.table && qs.writes == writes + Later(s.writes, trail)
  {
    ghost var s := Concluded(result, ans, qs.rows, r, states, before, charged);
    CancelElsewhere(qs, result.entry.id, ans.cancelBeforeResolve, ans.cancelledAt);
    var ok := ResolveRow(qs, result.entry.id, r, ans.resolveErr);
    assert qs.writes == writes + Later(s.writes, trail);
    return result.(unrecorded := !ok);
  }

  method RecheckOne(m: Mover, qs: RelocationQueue, disk: Disk, e: QueueEntry, ans: EntryAnswers, budget: int, charged: nat)
    returns (result: PendingResult, charged': nat)
    requires qs.disk == disk
    modifies qs, disk
    ensures var s := Recheck(m, e, ans, budget, charged, old(qs.rows), old(disk.entries));
            && result == s.result && charged' == s.charged && qs.rows == s.table
            && disk.trail == old(disk.trail) + s.states
            && disk.entries == Last(old(disk.entries), s.states)
            && qs.writes == old(qs.writes) + Later(s.writes, old(|disk.trail|))
  {
    hide GateBlock, Relocate, Concluded, Marked, Resolved;
    charged' := charged;
    ghost var trail, writes := |disk.trail|, qs.writes;
    assert writes + Later([], trail) == writes;
    assert disk.trail + [] == disk.trail;
    var why := RecheckGates(m, e, ans.gates, disk);
    if why.Some? {
      result := Conclude(qs, PendingResult(e, OutBlocked, false, 0, None, false), Resolution(Blocked, why.value, 0, 0), ans,
                         [], [], charged, trail, writes);
      return;
    }
    if budget >= 0 && charged >= budget {
      return PendingResult(e, OutSkippedBudget, false, 0, None, false), charged';
    }
    // Phase 1: the mark comes before any bytes move.
    charged' := charged + 1;
    ghost var t := qs.rows;
    CancelElsewhere(qs, e.id, ans.cancelBeforeMark, ans.cancelledAt);
    ghost var t1, cancelled := qs.rows, Written(t, CancelledElsewhere(t, e.id, ans.cancelBeforeMark, ans.cancelledAt), 0).1;
    assert qs.writes == writes + Later(cancelled, trail);
    var marked := false;
    if !ans.markErr {
      marked := qs.MarkAttempt(e.id, ans.markAt);
    }
    if !marked {
      assert qs.writes == writes + Later(cancelled, trail);
      return PendingResult(e, OutBlocked, false, 0, None, true), charged';
    }
    ghost var before := cancelled + [Write(0, qs.rows)];
    assert qs.writes == writes + Later(before, trail);
    ghost var run := Relocate(m, ActionOf(e), ans.os, disk.entries);
    var moved := Apply(m, ActionOf(e), ans.os, disk);
    // Phase 2: the outcome.
    if moved.Failed? {
      result := Conclude(qs, PendingResult(e, OutBlocked, true, 0, Some(moved.why), false),
                         Resolution(Blocked, "apply failed", 0, 0), ans, run.states, before, charged', trail, writes);
      return;
    }
    result := Conclude(qs, PendingResult(e, OutApplied, true, moved.freed, None, false),
                       Resolution(Applied, "", moved.freed, ans.resolvedAt), ans, run.states, before, charged', trail, writes);
  }

  datatype RunResult = Forbidden | ListFailed | Ran(results: seq<PendingResult>)

  lemma {:induction false} ReachedIs(answers: seq<EntryAnswers>, n: nat)
    requires n <= |answers| && forall k :: 0 <= k < n ==> !answers[k].stop
    requires n < |answers| ==> answers[n].stop
    ensures Reached(answers) == n
  {
    if n > 0 {
      ReachedIs(answers[1..], n - 1);
    }
  }

  /** The run stands where `now` says: what it returned so far, the queue, and the disk's trail. */
  ghost predicate StandsAt(now: Standing, qs: RelocationQueue, disk: Disk, trail: seq<Snapshot>, writes: seq<Write>,
                           charged: nat, out: seq<PendingResult>)
    reads qs, disk
  {
    && qs.disk == disk
    && charged == now.charged && out == now.results && qs.rows == now.table
    && disk.entries == now.disk && disk.trail == trail + now.states
    && qs.writes == writes + Later(now.writes, |trail|)
  }

  method TakeEntry(m: Mover, qs: RelocationQueue, disk: Disk, e: QueueEntry, ans: EntryAnswers, budget: int,
                   charged: nat, out: seq<PendingResult>, ghost now: Standing, ghost trail: seq<Snapshot>, ghost writes: seq<Write>)
    returns (charged': nat, out': seq<PendingResult>)
    requires StandsAt(now, qs, disk, trail, writes, charged, out)
    modifies qs, disk
    ensures StandsAt(Advanced(now, Recheck(m, e, ans, budget, now.charged, now.table, now.disk)), qs, disk, trail, writes,
                     charged', out')
  {
    hide Recheck;
    ghost var s := Recheck(m, e, ans, budget, charged, qs.rows, disk.entries);
    TrailAppend(trail, now.states, s.states);
    LaterTwice(now.writes, s.writes, |now.states|, |trail|);
    var result: PendingResult;
    result, charged' := RecheckOne(m, qs, disk, e, ans, budget, charged);
    out' := out + [result];
  }

  method RunEntries(m: Mover, qs: RelocationQueue, disk: Disk, listed: seq<QueueEntry>, budget: int,
                    answers: seq<EntryAnswers>)
    returns (out: seq<PendingResult>)
    requires |answers| == |listed| && qs.disk == disk
    modifies qs, disk
    ensures var end := StandingAt(m, listed, answers, budget, old(qs.rows), old(disk.entries), Reached(answers));
            && out == end.results && qs.rows == end.table
            && disk.entries == end.disk && disk.trail == old(disk.trail) + end.states
            && qs.writes == old(qs.writes) + Later(end.writes, old(|disk.trail|))
  {
    hide Recheck;
    out := [];
    var charged: nat := 0;
    ghost var t, st, trail, writes := qs.rows, disk.entries, disk.trail, qs.writes;
    ghost var now := StandingAt(m, listed, answers, budget, t, st, 0);
    var i := 0;
    while i < |listed| && !answers[i].stop
      invariant i <= |listed| && forall k :: 0 <= k < i ==> !answers[k].stop
      invariant now == StandingAt(m, listed, answers, budget, t, st, i)
      invariant StandsAt(now, qs, disk, trail, writes, charged, out)
    {
      ghost var next := StandingAt(m, listed, answers, budget, t, st, i + 1);
      charged, out := TakeEntry(m, qs, disk, listed[i], answers[i], budget, charged, out, now, trail, writes);
      now, i := next, i + 1;
    }
    ReachedIs(answers, i);
  }

  /** `answers` gives what the outside does to the n-th pending row; `entries` says which row that is. */
  method RunPending(m: Mover, qs: RelocationQueue, disk: Disk, trigger: TickTrigger, budget: int,
                    answers: nat -> EntryAnswers, listErr: bool)
    returns (r: RunResult, ghost entries: seq<QueueEntry>)
    requires qs.disk == disk
    modifies qs, disk
    ensures trigger !in {Daily, Manual} <==> r == Forbidden
    ensures r.Ran? <==> trigger in {Daily, Manual} && !listErr
    ensures !r.Ran? ==>
              && qs.rows == old(qs.rows) && qs.writes == old(qs.writes)
              && disk.entries == old(disk.entries) && disk.trail == old(disk.trail)
    ensures r.Ran? ==>
              && IsPendingList(old(qs.rows), entries)
              && var given := seq(|entries|, answers);
                 var end := StandingAt(m, entries, given, budget, old(qs.rows), old(disk.entries), Reached(given));
                 && r.results == end.results && qs.rows == end.table
                 && disk.entries == end.disk && disk.trail == old(disk.trail) + end.states
                 && qs.writes == old(qs.writes) + Later(end.writes, old(|disk.trail|))
  {
    entries := [];
    if trigger != Daily && trigger != Manual {
      return Forbidden, entries;
    }
    if listErr {
      return ListFailed, entries;
    }
    var listed := qs.ListPending();
    entries := listed;
    var out := RunEntries(m, qs, disk, listed, budget, seq(|listed|, answers));
    r := Ran(out);
  }

  // ---- Queueing with consent ----

  /** Queues what an apply could legally attempt, pinned to the destination configured now. */
  method EnqueueDeferred(m: Mover, qs: RelocationQueue, target: Path, gateReason: string, now: int) returns (id: Option<nat>)
    modifies qs
    ensures id.Some? <==> m.cfg.destRoot != "" && m.cfg.destVolumeUUID != ""
                          && StructuralRefusal(m, Action(OpRelocate, target, "")).None?
    ensures id.None? ==> qs.rows == old(qs.rows)
    ensures id.Some? ==>
              (qs.rows, id.value) == Enqueued(old(qs.rows),
                Request(now, target, PlaybookFor(m.playbooks, target).value.assetId,
                        m.cfg.destRoot, m.cfg.destVolumeUUID, gateReason))
  {
    if m.cfg.destRoot == "" || m.cfg.destVolumeUUID == "" {
      return None;
    }
    var pb := FindPlaybook(m, target);
    if pb.None? || pb.value.class_ != Relocatable {
      return None;
    }
    var n := qs.Enqueue(Request(now, target, pb.value.assetId, m.cfg.destRoot, m.cfg.destVolumeUUID, gateReason));
    return Some(n);
  }
}
