/** Enqueueing as the two statements it is: a look-up of a pending row for the target and, if there
    is none, an insert. Any number of processes may interleave them, with marks and resolutions in
    between. */
module EnqueueRace {
  import opened Options
  import opened RelocQueue

  type Process = nat

  /** A process that found no pending row for its target when the table had `seen` rows. */
  datatype Wish = Wish(q: Request, seen: nat)

  datatype State = State(table: Table, wishes: map<Process, Wish>)

  datatype Event =
    | Look(p: Process, q: Request)
    | Insert(p: Process)
    | Mark(id: nat, at: int)
    | Resolve(id: nat, r: Resolution)

  /** One statement; None when it cannot happen. */
  function Step(s: State, e: Event): Option<State> {
    match e
    case Look(p, q) =>
      Some(s.(wishes := if FirstPending(s.table, q.target).Some? then s.wishes - {p}
                        else s.wishes[p := Wish(q, |s.table|)]))
    case Insert(p) =>
      if p !in s.wishes then None
      else Some(State(s.table + [NewRow(s.wishes[p].q)], s.wishes - {p}))
    case Mark(id, at) => Some(s.(table := After(s.table, CallMark(id, at))))
    case Resolve(id, r) => Some(s.(table := After(s.table, CallResolve(id, r))))
  }

  /** Any interleaving that starts with one pending row per target and nobody between statements. */
  ghost predicate Behaviour(states: seq<State>, events: seq<Event>) {
    && |states| == |events| + 1 && states[0].wishes == map[] && OnePendingPerTarget(states[0].table)
    && forall k :: 0 <= k < |events| ==> Step(states[k], events[k]) == Some(states[k + 1])
  }

  /** A row inserted since the process looked is pending for its target. */
  predicate Raced(s: State, p: Process)
    requires p in s.wishes
  {
    exists i :: s.wishes[p].seen <= i < |s.table| && PendingFor(s.table[i], s.wishes[p].q.target)
  }

  ghost predicate WishesHold(s: State) {
    forall p :: p in s.wishes ==>
      && s.wishes[p].seen <= |s.table|
      && forall i :: 0 <= i < s.wishes[p].seen ==> !PendingFor(s.table[i], s.wishes[p].q.target)
  }

  /** The rows a process saw stay without a pending one for its target. */
  lemma {:induction false} RunsHoldWishes(states: seq<State>, events: seq<Event>, n: nat)
    requires Behaviour(states, events) && n < |states|
    ensures WishesHold(states[n])
  {
    if n > 0 {
      RunsHoldWishes(states, events, n - 1);
      assert Step(states[n - 1], events[n - 1]) == Some(states[n]);
      if events[n - 1].Look? {
        FirstPendingSound(states[n - 1].table, events[n - 1].q.target);
      }
    }
  }

  /** An insert leaves one pending row per target exactly when it is not raced. */
  lemma InsertIff(s: State, p: Process)
    requires WishesHold(s) && OnePendingPerTarget(s.table) && p in s.wishes
    ensures OnePendingPerTarget(Step(s, Insert(p)).value.table) <==> !Raced(s, p)
  {
    var q := s.wishes[p].q;
    InsertKeepsOnePendingIff(s.table, q);
    FirstPendingSound(s.table, q.target);
    if FirstPending(s.table, q.target).Some? {
      var i := FirstPending(s.table, q.target).value - 1;
      assert PendingFor(s.table[i], q.target);
    }
  }

  lemma {:induction false} UnracedKeepsOne(states: seq<State>, events: seq<Event>, n: nat)
    requires Behaviour(states, events) && n < |states|
    requires forall k :: 0 <= k < n && events[k].Insert? ==> events[k].p in states[k].wishes && !Raced(states[k], events[k].p)
    ensures OnePendingPerTarget(states[n].table)
  {
    hide OnePendingPerTarget, Raced;
    if n > 0 {
      UnracedKeepsOne(states, events, n - 1);
      RunsHoldWishes(states, events, n - 1);
      var s, e := states[n - 1], events[n - 1];
      assert Step(s, e) == Some(states[n]);
      match e
      case Look(_, _) =>
      case Insert(p) => InsertIff(s, p);
      case Mark(id, at) => CallKeeps(s.table, CallMark(id, at));
      case Resolve(id, r) => CallKeeps(s.table, CallResolve(id, r));
    }
  }

  /** In every interleaving, every table on the way has one pending row per target, exactly when no
      insert is raced: none finds a row that was inserted for its target since the look-up and is
      still pending. */
  lemma OnePendingIffUnraced(states: seq<State>, events: seq<Event>)
    requires Behaviour(states, events)
    ensures (forall k :: 0 <= k < |states| ==> OnePendingPerTarget(states[k].table)) <==>
            (forall k :: 0 <= k < |events| && events[k].Insert? ==>
               events[k].p in states[k].wishes && !Raced(states[k], events[k].p))
  {
    hide OnePendingPerTarget, Raced;
    if forall k :: 0 <= k < |states| ==> OnePendingPerTarget(states[k].table) {
      forall k | 0 <= k < |events| && events[k].Insert?
        ensures events[k].p in states[k].wishes && !Raced(states[k], events[k].p)
      {
        assert Step(states[k], events[k]) == Some(states[k + 1]);
        RunsHoldWishes(states, events, k);
        InsertIff(states[k], events[k].p);
      }
    }
    if forall k :: 0 <= k < |events| && events[k].Insert? ==> events[k].p in states[k].wishes && !Raced(states[k], events[k].p) {
      forall k | 0 <= k < |states| ensures OnePendingPerTarget(states[k].table) {
        UnracedKeepsOne(states, events, k);
      }
    }
  }

  /** Two processes that both look before either inserts leave two pending rows for one target. */
  lemma TwoProcessesDuplicate(q: Request)
    ensures var events := [Look(0, q), Look(1, q), Insert(0), Insert(1)];
            exists states: seq<State> :: Behaviour(states, events) && !OnePendingPerTarget(states[4].table)
  {
    var events := [Look(0, q), Look(1, q), Insert(0), Insert(1)];
    var w, row := Wish(q, 0), NewRow(q);
    var states := [State([], map[]), State([], map[0 := w]), State([], map[0 := w, 1 := w]),
                   State([row], map[1 := w]), State([row, row], map[])];
    assert map[0 := w, 1 := w] - {0} == map[1 := w] && map[1 := w] - {1} == map[];
    assert [] + [row] == [row] && [row] + [row] == [row, row];
    assert Behaviour(states, events);
    assert Pending(states[4].table[0]) && Pending(states[4].table[1]);
  }
}
