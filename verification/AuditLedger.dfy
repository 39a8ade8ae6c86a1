/** The audit table of unattended deletes. Rows are never deleted, so the row with id n is the n-th
    row ever recorded. */
module AuditLedger {
  import opened Options
  import opened AutoCleanGates
  import opened Triggers

  datatype Outcome = InProgress | Deleted | Skipped | Errored

  datatype Event = Event(
    startedAt: int, endedAt: int, trigger: TickTrigger, outcome: Outcome, skipReason: string,
    target: Path, module_: string, targetSize: int, freed: int, idleDays: int, suggestionId: int)

  datatype EventUpdate = EventUpdate(endedAt: int, outcome: Outcome, freed: int)

  type Ledger = seq<Event>

  function Updated(l: Ledger, id: int, u: EventUpdate): Ledger {
    if 1 <= id <= |l| then l[id - 1 := l[id - 1].(endedAt := u.endedAt, outcome := u.outcome, freed := u.freed)] else l
  }

  /** A row the roll-up since `since` counts. */
  predicate Counts(e: Event, since: int) {
    e.outcome == Deleted && e.startedAt >= since
  }

  function DeletedSince(l: Ledger, since: int): nat {
    if l == [] then 0 else DeletedSince(l[..|l| - 1], since) + if Counts(l[|l| - 1], since) then 1 else 0
  }

  function FreedSince(l: Ledger, since: int): int {
    if l == [] then 0 else FreedSince(l[..|l| - 1], since) + if Counts(l[|l| - 1], since) then l[|l| - 1].freed else 0
  }

  /** Rows whose delete has no recorded end. */
  function Stranded(l: Ledger): nat {
    if l == [] then 0 else Stranded(l[..|l| - 1]) + if l[|l| - 1].outcome == InProgress then 1 else 0
  }

  /** What one more row adds: a successful delete started no earlier than `since` counts once and with
      its bytes, an open row is stranded, any other adds nothing. */
  lemma OneMoreRow(l: Ledger, e: Event, since: int)
    ensures DeletedSince(l + [e], since) == DeletedSince(l, since) + if e.outcome == Deleted && e.startedAt >= since then 1 else 0
    ensures FreedSince(l + [e], since) == FreedSince(l, since) + if e.outcome == Deleted && e.startedAt >= since then e.freed else 0
    ensures Stranded(l + [e]) == Stranded(l) + if e.outcome == InProgress then 1 else 0
  {
    assert (l + [e])[..|l|] == l;
  }

  /** An empty table, and a table of one row. */
  lemma FewRows(e: Event, since: int)
    ensures DeletedSince([], since) == 0 && FreedSince([], since) == 0 && Stranded([]) == 0
    ensures DeletedSince([e], since) == if e.outcome == Deleted && e.startedAt >= since then 1 else 0
    ensures FreedSince([e], since) == if e.outcome == Deleted && e.startedAt >= since then e.freed else 0
    ensures Stranded([e]) == if e.outcome == InProgress then 1 else 0
  {
    OneMoreRow([], e, since);
    assert [] + [e] == [e];
  }

  /** Positions of the rows that were deleted and started no earlier than `since`. */
  ghost function DeletedRows(l: Ledger, since: int): set<int> {
    set i | 0 <= i < |l| && l[i].outcome == Deleted && l[i].startedAt >= since
  }

  lemma DeletedRowsSnoc(l: Ledger, e: Event, since: int)
    ensures DeletedRows(l + [e], since) == DeletedRows(l, since) + if e.outcome == Deleted && e.startedAt >= since then {|l|} else {}
  {
  }

  /** The count is the number of such rows. */
  lemma {:induction false} DeletedSinceIs(l: Ledger, since: int)
    ensures DeletedSince(l, since) == |DeletedRows(l, since)|
  {
    if l == [] {
      assert DeletedRows(l, since) == {};
    } else {
      var n := |l| - 1;
      hide DeletedSince;
      DeletedSinceIs(l[..n], since);
      OneMoreRow(l[..n], l[n], since);
      DeletedRowsSnoc(l[..n], l[n], since);
      assert l == l[..n] + [l[n]];
      assert n !in DeletedRows(l[..n], since);
    }
  }

  class Audit {
    var events: Ledger

    constructor ()
      ensures events == []
    {
      events := [];
    }

    method Record(e: Event, storeErr: bool) returns (id: Option<nat>)
      modifies this
      ensures storeErr ==> id == None && events == old(events)
      ensures !storeErr ==> events == old(events) + [e] && id == Some(|events|)
    {
      if storeErr {
        return None;
      }
      events := events + [e];
      return Some(|events|);
    }

    method Update(id: int, u: EventUpdate, storeErr: bool)
      modifies this
      ensures events == if storeErr then old(events) else Updated(old(events), id, u)
    {
      if !storeErr && 1 <= id <= |events| {
        events := events[id - 1 := events[id - 1].(endedAt := u.endedAt, outcome := u.outcome, freed := u.freed)];
      }
    }

    method StatsSince(since: int) returns (count: nat, freed: int)
      ensures count == DeletedSince(events, since) && freed == FreedSince(events, since)
    {
      count, freed := 0, 0;
      for i := 0 to |events|
        invariant count == DeletedSince(events[..i], since) && freed == FreedSince(events[..i], since)
      {
        OneMoreRow(events[..i], events[i], since);
        assert events[..i + 1] == events[..i] + [events[i]];
        if events[i].outcome == Deleted && events[i].startedAt >= since {
          count, freed := count + 1, freed + events[i].freed;
        }
      }
      assert events[..|events|] == events;
    }
  }
}
