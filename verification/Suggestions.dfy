/** The suggestions table: rows are inserted and marked dismissed, never deleted, so the row with id
    n is the n-th row ever inserted. A row is open until it is dismissed. */
module Suggestions {
  import opened Options
  import opened AutoCleanGates
  import opened Sorting

  /** What a suggestion is about. */
  datatype Key = Key(module_: string, target: Path)

  datatype Row = Row(ts: int, key: Key, reason: string, dismissedAt: Option<int>)

  type Table = seq<Row>

  datatype OpenEntry = OpenEntry(id: nat, row: Row)

  function KeyOf(s: Suggestion): Key {
    Key(s.module_, s.target)
  }

  predicate OpenId(t: Table, id: int) {
    1 <= id <= |t| && t[id - 1].dismissedAt.None?
  }

  predicate HasOpen(t: Table, k: Key) {
    exists i :: 0 <= i < |t| && t[i].dismissedAt.None? && t[i].key == k
  }

  function Inserted(t: Table, s: Suggestion, ts: int): Table {
    t + [Row(ts, KeyOf(s), s.reason, None)]
  }

  function Dismissed(t: Table, id: int, at: int): Table {
    if 1 <= id <= |t| then t[id - 1 := t[id - 1].(dismissedAt := Some(at))] else t
  }

  /** At most one open row per module and target. */
  ghost predicate OpenOnce(t: Table) {
    forall i, j :: 0 <= i < j < |t| && t[i].dismissedAt.None? && t[j].dismissedAt.None? ==> t[i].key != t[j].key
  }

  // ---- The listing of open rows ----

  predicate Newer(a: OpenEntry, b: OpenEntry) {
    a.row.ts >= b.row.ts
  }

  /** `out` lists every open row once, newest first. */
  ghost predicate IsOpenList(t: Table, out: seq<OpenEntry>) {
    && (forall k :: 0 <= k < |out| ==> OpenId(t, out[k].id) && out[k].row == t[out[k].id - 1])
    && (forall id: nat :: OpenId(t, id) ==> OpenEntry(id, t[id - 1]) in out)
    && (forall j, k :: 0 <= j < k < |out| ==> out[j].id != out[k].id && Newer(out[j], out[k]))
  }

  /** `found` lists the open rows with ids up to `n`, in order. */
  ghost predicate ListedUpTo(t: Table, found: seq<OpenEntry>, n: nat) {
    && (forall k :: 0 <= k < |found| ==> OpenId(t, found[k].id) && found[k].id <= n && found[k].row == t[found[k].id - 1])
    && (forall id: nat :: OpenId(t, id) && id <= n ==> OpenEntry(id, t[id - 1]) in found)
    && (forall j, k :: 0 <= j < k < |found| ==> found[j].id < found[k].id)
  }

  lemma SortedIsListed(t: Table, found: seq<OpenEntry>, out: seq<OpenEntry>)
    requires ListedUpTo(t, found, |t|) && multiset(found) == multiset(out) && Sorted(out, Newer)
    ensures IsOpenList(t, out)
  {
    PermutationMembers(out, found);
    assert Distinct(found);
    DistinctPermutes(found, out);
    forall k | 0 <= k < |out| ensures OpenId(t, out[k].id) && out[k].row == t[out[k].id - 1] {
      assert out[k] in found;
    }
    forall j, k | 0 <= j < k < |out| ensures out[j].id != out[k].id && Newer(out[j], out[k]) {
      assert out[j] in found && out[k] in found;
    }
  }

  class SuggestionTable {
    var rows: Table

    constructor ()
      ensures rows == []
    {
      rows := [];
    }

    /** Counts the open rows for a module and target. */
    method HasOpenSuggestion(k: Key) returns (open: bool)
      ensures open == HasOpen(rows, k)
    {
      var n := 0;
      for i := 0 to |rows|
        invariant 0 <= n
        invariant n > 0 <==> exists j :: 0 <= j < i && rows[j].dismissedAt.None? && rows[j].key == k
      {
        if rows[i].dismissedAt.None? && rows[i].key == k {
          n := n + 1;
        }
      }
      return n > 0;
    }

    method Insert(s: Suggestion, ts: int) returns (id: nat)
      modifies this
      ensures rows == Inserted(old(rows), s, ts) && id == |rows|
    {
      rows := rows + [Row(ts, KeyOf(s), s.reason, None)];
      return |rows|;
    }

    method Dismiss(id: int, at: int)
      modifies this
      ensures rows == Dismissed(old(rows), id, at)
    {
      if 1 <= id <= |rows| {
        rows := rows[id - 1 := rows[id - 1].(dismissedAt := Some(at))];
      }
    }

    method ListOpen() returns (out: seq<OpenEntry>)
      ensures IsOpenList(rows, out)
    {
      var found: seq<OpenEntry> := [];
      for i := 0 to |rows|
        invariant ListedUpTo(rows, found, i)
      {
        if rows[i].dismissedAt.None? {
          found := found + [OpenEntry(i + 1, rows[i])];
        }
      }
      out := Sort(found, Newer);
      SortedIsListed(rows, found, out);
    }
  }

  /** A suggestion is told apart by its module and its target, and by nothing else. */
  lemma SameKeyIff(a: Suggestion, b: Suggestion)
    ensures KeyOf(a) == KeyOf(b) <==> a.module_ == b.module_ && a.target == b.target
    ensures KeyOf(a).module_ == a.module_ && KeyOf(a).target == a.target
  {
  }

  /** An insert adds one open row that says all the suggestion says, at its time. */
  lemma InsertAdds(t: Table, s: Suggestion, ts: int)
    ensures Inserted(t, s, ts) == t + [Row(ts, Key(s.module_, s.target), s.reason, None)]
  {
  }

  /** Open rows are listed from the newest. */
  lemma NewestFirst(t: Table, out: seq<OpenEntry>, j: nat, k: nat)
    requires IsOpenList(t, out) && j < k < |out|
    ensures out[j].row.ts >= out[k].row.ts && out[j].id != out[k].id
  {
    assert Newer(out[j], out[k]);
  }

  // ---- Persisting what is new ----

  /** What the store answers for one candidate, and the time stamp of its row. */
  datatype PersistAnswer = PersistAnswer(dedupeErr: bool, insertErr: bool, ts: int)

  datatype Persisted = Persisted(table: Table, added: seq<Suggestion>)

  function PersistOne(p: Persisted, s: Suggestion, a: PersistAnswer): Persisted {
    if a.dedupeErr || HasOpen(p.table, KeyOf(s)) || a.insertErr then p
    else Persisted(Inserted(p.table, s, a.ts), p.added + [s.(id := |p.table| + 1)])
  }

  /** The first `n` candidates, one after the other. */
  function PersistUpTo(t: Table, candidates: seq<Suggestion>, answers: seq<PersistAnswer>, n: nat): Persisted
    requires n <= |candidates| && n <= |answers|
  {
    if n == 0 then Persisted(t, [])
    else PersistOne(PersistUpTo(t, candidates, answers, n - 1), candidates[n - 1], answers[n - 1])
  }

  lemma {:induction false} FreshBound(t: Table, candidates: seq<Suggestion>, answers: seq<PersistAnswer>, n: nat)
    requires n <= |candidates| && n <= |answers|
    ensures |PersistUpTo(t, candidates, answers, n).added| <= n
  {
    if n > 0 {
      FreshBound(t, candidates, answers, n - 1);
    }
  }

  /** Compacts the candidates in place: the fresh ones move to the front with their new ids. A
      candidate is overwritten only after it was read. */
  method PersistNew(a: array<Suggestion>, table: SuggestionTable, answers: seq<PersistAnswer>) returns (n: nat)
    requires |answers| == a.Length
    modifies a, table
    ensures n <= a.Length
    ensures var p := PersistUpTo(old(table.rows), old(a[..]), answers, a.Length);
            a[..n] == p.added && table.rows == p.table
  {
    n := 0;
    ghost var t, candidates := table.rows, a[..];
    for i := 0 to a.Length
      invariant n <= i && forall k :: i <= k < a.Length ==> a[k] == candidates[k]
      invariant Persisted(table.rows, a[..n]) == PersistUpTo(t, candidates, answers, i)
    {
      var s := a[i];
      assert s == candidates[i];
      if answers[i].dedupeErr {
        continue;
      }
      var open := table.HasOpenSuggestion(KeyOf(s));
      if open {
        continue;
      }
      if answers[i].insertErr {
        continue;
      }
      var id := table.Insert(s, answers[i].ts);
      ghost var before := a[..n];
      a[n] := s.(id := id);
      assert a[..n + 1] == before + [s.(id := id)];
      n := n + 1;
    }
  }

  // ---- What persisting means ----

  /** The candidates the store did not fail on. */
  function Accepted(candidates: seq<Suggestion>, answers: seq<PersistAnswer>, n: nat): seq<Suggestion>
    requires n <= |candidates| && n <= |answers|
  {
    if n == 0 then []
    else Accepted(candidates, answers, n - 1) +
         (if answers[n - 1].dedupeErr || answers[n - 1].insertErr then [] else [candidates[n - 1]])
  }

  predicate FirstOfItsKind(t: Table, candidates: seq<Suggestion>, i: nat)
    requires i < |candidates|
  {
    !HasOpen(t, KeyOf(candidates[i])) && forall j :: 0 <= j < i ==> KeyOf(candidates[j]) != KeyOf(candidates[i])
  }

  /** The first occurrences that are not open yet, in order, numbered from the end of the table. */
  function FirstOccurrences(t: Table, candidates: seq<Suggestion>, n: nat): seq<Suggestion>
    requires n <= |candidates|
  {
    if n == 0 then []
    else
      var before := FirstOccurrences(t, candidates, n - 1);
      before + (if FirstOfItsKind(t, candidates, n - 1) then [candidates[n - 1].(id := |t| + |before| + 1)] else [])
  }

  /** The table behind a result: the old rows, then one open row per fresh suggestion. */
  ghost predicate GrewBy(t: Table, p: Persisted) {
    && |p.table| == |t| + |p.added| && p.table[..|t|] == t
    && forall k :: 0 <= k < |p.added| ==>
         p.added[k].id == |t| + k + 1 && p.table[|t| + k].key == KeyOf(p.added[k]) && p.table[|t| + k].dismissedAt.None?
         && p.table[|t| + k].reason == p.added[k].reason
  }

  lemma {:induction false} PersistGrows(t: Table, candidates: seq<Suggestion>, answers: seq<PersistAnswer>, n: nat)
    requires n <= |candidates| && n <= |answers|
    ensures GrewBy(t, PersistUpTo(t, candidates, answers, n))
  {
    if n > 0 {
      PersistGrows(t, candidates, answers, n - 1);
    }
  }

  lemma HasOpenGrown(t: Table, p: Persisted, k: Key)
    requires GrewBy(t, p)
    ensures HasOpen(p.table, k) <==> HasOpen(t, k) || exists i :: 0 <= i < |p.added| && KeyOf(p.added[i]) == k
  {
    if HasOpen(t, k) {
      var i :| 0 <= i < |t| && t[i].dismissedAt.None? && t[i].key == k;
      assert p.table[i] == t[i];
    }
    if i :| 0 <= i < |p.added| && KeyOf(p.added[i]) == k {
      assert p.table[|t| + i].key == k;
    }
    if HasOpen(p.table, k) {
      var i :| 0 <= i < |p.table| && p.table[i].dismissedAt.None? && p.table[i].key == k;
      if i < |t| {
        assert p.table[..|t|][i] == t[i];
      } else {
        assert KeyOf(p.added[i - |t|]) == k;
      }
    }
  }

  /** The keys that were open or are among the first `n` accepted candidates are those that are
      open afterwards. */
  lemma {:induction false} FreshCoversKeys(t: Table, candidates: seq<Suggestion>, n: nat, k: Key)
    requires n <= |candidates|
    ensures (HasOpen(t, k) || exists i :: 0 <= i < |FirstOccurrences(t, candidates, n)| && KeyOf(FirstOccurrences(t, candidates, n)[i]) == k)
            <==>
            (HasOpen(t, k) || exists j :: 0 <= j < n && KeyOf(candidates[j]) == k)
  {
    if n > 0 {
      FreshCoversKeys(t, candidates, n - 1, k);
      FreshCoversKeys(t, candidates, n - 1, KeyOf(candidates[n - 1]));
      var before, out := FirstOccurrences(t, candidates, n - 1), FirstOccurrences(t, candidates, n);
      assert forall i :: 0 <= i < |before| ==> out[i] == before[i];
      if FirstOfItsKind(t, candidates, n - 1) {
        assert KeyOf(out[|before|]) == KeyOf(candidates[n - 1]);
      }
    }
  }

  /** After `seen` went through, a further candidate finds its key open exactly when it is not the
      first of its kind. */
  lemma OpenIffNotFirst(t: Table, p: Persisted, seen: seq<Suggestion>, s: Suggestion)
    requires GrewBy(t, p) && p.added == FirstOccurrences(t, seen, |seen|)
    ensures HasOpen(p.table, KeyOf(s)) <==> !FirstOfItsKind(t, seen + [s], |seen|)
  {
    hide FirstOccurrences, GrewBy;
    HasOpenGrown(t, p, KeyOf(s));
    FreshCoversKeys(t, seen, |seen|, KeyOf(s));
    assert forall j :: 0 <= j < |seen| ==> (seen + [s])[j] == seen[j];
  }

  /** Persisting returns exactly the first occurrences, among the candidates the store did not fail
      on, that were not open yet, in their order, with fresh ids. */
  lemma {:induction false} PersistKeepsFirstOccurrences(t: Table, candidates: seq<Suggestion>, answers: seq<PersistAnswer>, n: nat)
    requires n <= |candidates| && n <= |answers|
    ensures var accepted := Accepted(candidates, answers, n);
            PersistUpTo(t, candidates, answers, n).added == FirstOccurrences(t, accepted, |accepted|)
  {
    hide HasOpen, FirstOfItsKind, GrewBy;
    if n > 0 {
      PersistKeepsFirstOccurrences(t, candidates, answers, n - 1);
      var p, before := PersistUpTo(t, candidates, answers, n - 1), Accepted(candidates, answers, n - 1);
      var a, s := answers[n - 1], candidates[n - 1];
      PersistGrows(t, candidates, answers, n - 1);
      if !a.dedupeErr && !a.insertErr {
        var accepted := before + [s];
        FirstOccurrencesOfPrefix(t, before, accepted, |before|);
        OpenIffNotFirst(t, p, before, s);
        GrewByLength(t, p);
      } else {
        assert Accepted(candidates, answers, n) == before;
      }
    }
  }

  lemma GrewByLength(t: Table, p: Persisted)
    requires GrewBy(t, p)
    ensures |p.table| == |t| + |p.added|
  {
  }

  lemma {:induction false} FirstOccurrencesOfPrefix(t: Table, a: seq<Suggestion>, b: seq<Suggestion>, n: nat)
    requires n <= |a| <= |b| && b[..|a|] == a
    ensures FirstOccurrences(t, a, n) == FirstOccurrences(t, b, n)
  {
    if n > 0 {
      FirstOccurrencesOfPrefix(t, a, b, n - 1);
      assert forall j :: 0 <= j < n ==> b[j] == a[j];
    }
  }

  // ---- Every reachable table ----

  datatype Change = ChangePersist(candidates: seq<Suggestion>, answers: seq<PersistAnswer>) | ChangeDismiss(id: int, at: int)

  predicate WellFormed(c: Change) {
    c.ChangePersist? ==> |c.candidates| == |c.answers|
  }

  function Changed(t: Table, c: Change): Table
    requires WellFormed(c)
  {
    match c
    case ChangePersist(candidates, answers) => PersistUpTo(t, candidates, answers, |candidates|).table
    case ChangeDismiss(id, at) => Dismissed(t, id, at)
  }

  function Reached(t: Table, changes: seq<Change>): Table
    requires forall c :: c in changes ==> WellFormed(c)
    decreases |changes|
  {
    if changes == [] then t else Reached(Changed(t, changes[0]), changes[1..])
  }

  lemma {:induction false} PersistKeepsOpenOnce(t: Table, candidates: seq<Suggestion>, answers: seq<PersistAnswer>, n: nat)
    requires n <= |candidates| && n <= |answers| && OpenOnce(t)
    ensures OpenOnce(PersistUpTo(t, candidates, answers, n).table)
  {
    if n > 0 {
      PersistKeepsOpenOnce(t, candidates, answers, n - 1);
    }
  }

  /** However persisting and dismissing follow one another, no module and target is open twice. */
  lemma {:induction false} NeverOpenTwice(t: Table, changes: seq<Change>)
    requires OpenOnce(t) && forall c :: c in changes ==> WellFormed(c)
    ensures OpenOnce(Reached(t, changes))
    decreases |changes|
  {
    if changes != [] {
      var c := changes[0];
      assert WellFormed(c) by {
        assert c in changes;
      }
      if c.ChangePersist? {
        PersistKeepsOpenOnce(t, c.candidates, c.answers, |c.candidates|);
      }
      NeverOpenTwice(Changed(t, c), changes[1..]);
    }
  }
}
