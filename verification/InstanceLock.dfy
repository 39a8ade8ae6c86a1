/** The single-instance law, as a step system over any number of daemon processes. A daemon opens
    the lock file, takes the lock, looks whether somebody answers on the socket, removes a stale
    socket, listens; stopping closes the listener, removes the socket, unlinks the lock file and
    closes it. A process can die between any two steps; the kernel then drops its lock and its
    listener but leaves the files. */
module InstanceLock {
  import opened Options
  import opened Sets

  type Process = nat

  type Inode = nat

  datatype Exit = Clean | AlreadyRunning | ListenFailed

  datatype Phase =
    | Idle
    | Opened(lock: Inode)
    | Holding(lock: Inode)
    | Checked(lock: Inode)
    | Cleared(lock: Inode)
    | Bound(lock: Inode)
    | Closing(lock: Inode)
    | Releasing(lock: Inode, exit: Exit)
    | Unlinked(lock: Inode, exit: Exit)
    | Done(exit: Exit)
    | Dead

  /** `lockAt` is the file the lock path names, `holder` who has locked which file, `socketAt` who
      created the socket file that is there, `listening` whose listener is open. `removers` and
      `harmed` are history: who ever removed the socket file, and whether anyone removed the
      socket of another process that was listening on it. */
  datatype State = State(
    lockAt: Option<Inode>, nextInode: Inode, holder: map<Inode, Process>,
    socketAt: Option<Process>, listening: set<Process>, phases: map<Process, Phase>,
    removers: set<Process>, harmed: bool)

  const INIT := State(None, 0, map[], None, {}, map[], {}, false)

  datatype Event =
    | Open(p: Process)
    | Flock(p: Process)
    | Probe(p: Process)
    | RemoveStale(p: Process)
    | Listen(p: Process, ok: bool)
    | CloseListener(p: Process)
    | RemoveSocket(p: Process)
    | UnlinkLock(p: Process)
    | CloseLock(p: Process)
    | Crash(p: Process)

  function At(s: State, p: Process): Phase {
    if p in s.phases then s.phases[p] else Idle
  }

  function Go(s: State, p: Process, to: Phase): State {
    s.(phases := s.phases[p := to])
  }

  /** Somebody accepts connections on the socket path. */
  predicate Answers(s: State) {
    s.socketAt.Some? && s.socketAt.value in s.listening
  }

  function SocketRemoved(s: State, p: Process): State {
    s.(socketAt := None, removers := s.removers + {p},
       harmed := s.harmed || (Answers(s) && s.socketAt.value != p))
  }

  function LockDropped(s: State, p: Process): State {
    s.(holder := map i | i in s.holder && s.holder[i] != p :: s.holder[i])
  }

  /** One step of one process; None when it cannot take that step. */
  function Step(s: State, e: Event): Option<State> {
    var at := At(s, e.p);
    match e
    case Open(p) =>
      if !at.Idle? then None
      else if s.lockAt.Some? then Some(Go(s, p, Opened(s.lockAt.value)))
      else Some(Go(s.(lockAt := Some(s.nextInode), nextInode := s.nextInode + 1), p, Opened(s.nextInode)))
    case Flock(p) =>
      if !at.Opened? then None
      else if at.lock in s.holder then Some(Go(s, p, Done(AlreadyRunning)))
      else Some(Go(s.(holder := s.holder[at.lock := p]), p, Holding(at.lock)))
    case Probe(p) =>
      if !at.Holding? then None
      else Some(Go(s, p, if Answers(s) then Releasing(at.lock, AlreadyRunning) else Checked(at.lock)))
    case RemoveStale(p) =>
      if !at.Checked? then None else Some(Go(SocketRemoved(s, p), p, Cleared(at.lock)))
    case Listen(p, ok) =>
      if !at.Cleared? then None
      else if ok && s.socketAt.None? then
        Some(Go(s.(socketAt := Some(p), listening := s.listening + {p}), p, Bound(at.lock)))
      else Some(Go(s, p, Releasing(at.lock, ListenFailed)))
    case CloseListener(p) =>
      // Closing a unix listener stops it and unlinks its path.
      if !at.Bound? then None
      else Some(Go(SocketRemoved(s.(listening := s.listening - {p}), p), p, Closing(at.lock)))
    case RemoveSocket(p) =>
      if !at.Closing? then None else Some(Go(SocketRemoved(s, p), p, Releasing(at.lock, Clean)))
    case UnlinkLock(p) =>
      if !at.Releasing? then None else Some(Go(s.(lockAt := None), p, Unlinked(at.lock, at.exit)))
    case CloseLock(p) =>
      if !at.Unlinked? then None else Some(Go(LockDropped(s, p), p, Done(at.exit)))
    case Crash(p) =>
      if at.Idle? || at.Done? || at.Dead? then None
      else Some(Go(LockDropped(s.(listening := s.listening - {p}), p), p, Dead))
  }

  // ---- The invariant ----

  /** Holding the lock of the file at the lock path. */
  predicate Critical(at: Phase) {
    at.Holding? || at.Checked? || at.Cleared? || at.Bound? || at.Closing? || at.Releasing?
  }

  ghost predicate PhaseSound(s: State, p: Process) {
    var at := At(s, p);
    && (Critical(at) ==> s.lockAt == Some(at.lock) && at.lock in s.holder && s.holder[at.lock] == p)
    && (at.Unlinked? ==> s.lockAt != Some(at.lock) && at.lock in s.holder && s.holder[at.lock] == p)
    && (at.Opened? || at.Unlinked? ==> at.lock < s.nextInode)
    && (p in s.listening <==> at.Bound?)
  }

  ghost predicate HolderSound(s: State, i: Inode)
    requires i in s.holder
  {
    var at := At(s, s.holder[i]);
    (Critical(at) || at.Unlinked?) && at.lock == i
  }

  ghost predicate Inv(s: State) {
    && (forall p :: PhaseSound(s, p))
    && (forall i :: i in s.holder ==> HolderSound(s, i))
    && (s.lockAt.Some? ==> s.lockAt.value < s.nextInode)
    && !s.harmed
  }

  /** The file a process has just locked is still the one at the lock path. */
  predicate Fresh(s: State, e: Event) {
    e.Flock? && At(s, e.p).Opened? && At(s, e.p).lock !in s.holder ==> s.lockAt == Some(At(s, e.p).lock)
  }

  lemma OwnPhaseKept(s: State, e: Event, s': State)
    requires Inv(s) && Fresh(s, e) && Step(s, e) == Some(s')
    ensures PhaseSound(s', e.p)
  {
    assert PhaseSound(s, e.p);
  }

  lemma OtherPhaseKept(s: State, e: Event, s': State, q: Process)
    requires Inv(s) && Step(s, e) == Some(s') && q != e.p
    ensures PhaseSound(s', q)
  {
    assert PhaseSound(s, e.p) && PhaseSound(s, q);
    if Critical(At(s, q)) {
      assert At(s, q).lock in s.holder;
    }
  }

  lemma OwnHolderKept(s: State, e: Event, s': State, i: Inode)
    requires Inv(s) && Step(s, e) == Some(s') && i in s'.holder && s'.holder[i] == e.p
    ensures HolderSound(s', i)
  {
    if i in s.holder {
      assert HolderSound(s, i);
    }
  }

  lemma OtherHolderKept(s: State, e: Event, s': State, i: Inode)
    requires Inv(s) && Step(s, e) == Some(s') && i in s'.holder && s'.holder[i] != e.p
    ensures HolderSound(s', i)
  {
    assert i in s.holder && s.holder[i] == s'.holder[i] && HolderSound(s, i);
    assert At(s', s.holder[i]) == At(s, s.holder[i]);
  }

  lemma NoneHarmed(s: State, e: Event, s': State)
    requires Inv(s) && Step(s, e) == Some(s')
    ensures !s'.harmed && (s'.lockAt.Some? ==> s'.lockAt.value < s'.nextInode)
  {
    assert PhaseSound(s, e.p);
    if s.socketAt.Some? {
      assert PhaseSound(s, s.socketAt.value);
    }
  }

  lemma StepKeepsInv(s: State, e: Event, s': State)
    requires Inv(s) && Fresh(s, e) && Step(s, e) == Some(s')
    ensures Inv(s')
  {
    hide Step, Fresh, PhaseSound, HolderSound;
    forall q ensures PhaseSound(s', q) {
      if q == e.p {
        OwnPhaseKept(s, e, s');
      } else {
        OtherPhaseKept(s, e, s', q);
      }
    }
    forall i | i in s'.holder ensures HolderSound(s', i) {
      if s'.holder[i] == e.p {
        OwnHolderKept(s, e, s', i);
      } else {
        OtherHolderKept(s, e, s', i);
      }
    }
    NoneHarmed(s, e, s');
  }

  /** Taking a free lock keeps the invariant exactly when the locked file is still the one at the
      lock path: the check the code does not make. */
  lemma FlockKeepsInvIff(s: State, p: Process)
    requires Inv(s) && At(s, p).Opened? && At(s, p).lock !in s.holder
    ensures Inv(Step(s, Flock(p)).value) <==> s.lockAt == Some(At(s, p).lock)
  {
    var s' := Step(s, Flock(p)).value;
    if s.lockAt == Some(At(s, p).lock) {
      StepKeepsInv(s, Flock(p), s');
    } else {
      assert !PhaseSound(s', p);
    }
  }

  // ---- Runs ----

  /** Any interleaving from a clean start. */
  ghost predicate Behaviour(states: seq<State>, events: seq<Event>) {
    && |states| == |events| + 1 && states[0] == INIT
    && forall k :: 0 <= k < |events| ==> Step(states[k], events[k]) == Some(states[k + 1])
  }

  ghost predicate BoundAt(s: State, p: Process) {
    At(s, p).Bound?
  }

  ghost predicate AtMostOneBound(s: State) {
    forall p, q :: BoundAt(s, p) && BoundAt(s, q) ==> p == q
  }

  lemma {:induction false} FreshRunsKeepInv(states: seq<State>, events: seq<Event>, n: nat)
    requires Behaviour(states, events) && n < |states|
    requires forall k :: 0 <= k < n ==> Fresh(states[k], events[k])
    ensures Inv(states[n])
  {
    if n > 0 {
      FreshRunsKeepInv(states, events, n - 1);
      StepKeepsInv(states[n - 1], events[n - 1], states[n]);
    }
  }

  /** As long as every lock taken is the lock of the file at the lock path, at most one process is
      bound at any point, and nobody ever removes the socket of another that listens on it. */
  lemma OneInstance(states: seq<State>, events: seq<Event>, n: nat)
    requires Behaviour(states, events) && n < |states|
    requires forall k :: 0 <= k < n ==> Fresh(states[k], events[k])
    ensures AtMostOneBound(states[n]) && !states[n].harmed
  {
    FreshRunsKeepInv(states, events, n);
    var s := states[n];
    forall p, q | BoundAt(s, p) && BoundAt(s, q) ensures p == q {
      assert PhaseSound(s, p) && PhaseSound(s, q);
    }
  }

  // ---- Who is refused ----

  /** A process is refused for good when the lock is held, when somebody answers on the socket after it
      took the lock, or when it cannot listen; and it listens exactly when the socket path is free. */
  lemma RefusedIff(s: State, p: Process)
    ensures At(s, p).Opened? ==>
              At(Step(s, Flock(p)).value, p) ==
              if At(s, p).lock in s.holder then Done(AlreadyRunning) else Holding(At(s, p).lock)
    ensures At(s, p).Holding? ==>
              At(Step(s, Probe(p)).value, p) ==
              if s.socketAt.Some? && s.socketAt.value in s.listening
              then Releasing(At(s, p).lock, AlreadyRunning) else Checked(At(s, p).lock)
    ensures forall ok :: At(s, p).Cleared? ==>
              At(Step(s, Listen(p, ok)).value, p) ==
              if ok && s.socketAt == None then Bound(At(s, p).lock) else Releasing(At(s, p).lock, ListenFailed)
    ensures At(s, p).Checked? ==> Step(s, RemoveStale(p)).value.socketAt == None
  {
  }

  /** A process that is not bound is never in the way: the one that opens the lock file gets the file
      that is there, or a new one if there is none. */
  lemma OpensWhatIsThere(s: State, p: Process)
    requires At(s, p).Idle?
    ensures var t := Step(s, Open(p)).value;
            && t.lockAt.Some? && At(t, p) == Opened(t.lockAt.value)
            && (s.lockAt.Some? ==> t.lockAt == s.lockAt)
            && (s.lockAt.None? ==> t.lockAt == Some(s.nextInode) && t.nextInode > s.nextInode)
  {
  }

  /** A server that stops, with nothing in between, leaves no socket, no lock file and no lock. */
  lemma StopLeavesNothing(s: State, p: Process)
    requires Inv(s) && At(s, p).Bound?
    ensures var t := Step(Step(Step(Step(s, CloseListener(p)).value, RemoveSocket(p)).value, UnlinkLock(p)).value, CloseLock(p)).value;
            && At(t, p) == Done(Clean) && t.socketAt == None && t.lockAt == None
            && p !in t.listening && At(s, p).lock !in t.holder
  {
    assert PhaseSound(s, p);
    var s1 := Step(s, CloseListener(p)).value;
    var s2 := Step(s1, RemoveSocket(p)).value;
    var s3 := Step(s2, UnlinkLock(p)).value;
    assert At(s1, p).Closing? && At(s2, p) == Releasing(At(s, p).lock, Clean) && At(s3, p) == Unlinked(At(s, p).lock, Clean);
  }

  /** A process that dies drops its lock and its listener, and leaves the files. */
  lemma DeathLeavesFiles(s: State, p: Process)
    requires Inv(s) && Step(s, Crash(p)).Some?
    ensures var t := Step(s, Crash(p)).value;
            && t.lockAt == s.lockAt && t.socketAt == s.socketAt
            && t.listening == s.listening - {p} && forall i :: i in t.holder <==> i in s.holder && s.holder[i] != p
  {
  }

  /** A process told that another is running, or on its way to be told so. */
  predicate TurnedAway(at: Phase) {
    (at.Done? || at.Releasing? || at.Unlinked?) && at.exit == AlreadyRunning
  }

  /** No removal by one that is still before the clean-up or was turned away. */
  ghost predicate RefusedSpares(s: State) {
    forall p :: p in s.removers ==>
      var at := At(s, p);
      !(at.Idle? || at.Opened? || at.Holding? || at.Checked? || TurnedAway(at))
  }

  /** In every interleaving, fresh locks or not, a server refused because another is running never
      removes the socket. */
  lemma {:induction false} RefusedNeverUnlinks(states: seq<State>, events: seq<Event>, n: nat)
    requires Behaviour(states, events) && n < |states|
    ensures RefusedSpares(states[n])
  {
    if n > 0 {
      RefusedNeverUnlinks(states, events, n - 1);
      var s, e := states[n - 1], events[n - 1];
      forall p | p in states[n].removers
        ensures var at := At(states[n], p); !(at.Idle? || at.Opened? || at.Holding? || at.Checked? || TurnedAway(at))
      {
        if p in s.removers && p != e.p {
          assert At(states[n], p) == At(s, p);
        }
      }
    }
  }

  // ---- Which locks may be taken ----

  function Before(start: State, states: seq<State>, k: nat): State
    requires k <= |states|
  {
    if k == 0 then start else states[k - 1]
  }

  /** The states the events lead to, one after each event. */
  ghost predicate Leads(start: State, events: seq<Event>, states: seq<State>) {
    && |states| == |events|
    && forall k :: 0 <= k < |events| ==> Step(Before(start, states, k), events[k]) == Some(states[k])
  }

  ghost predicate LocksFresh(start: State, events: seq<Event>, states: seq<State>)
    requires |states| == |events|
  {
    forall k :: 0 <= k < |events| ==> Fresh(Before(start, states, k), events[k])
  }

  /** Whatever happens from here on, at most one process is ever bound, as long as every further
      lock taken is the lock of the file at the lock path. */
  ghost predicate SafeFrom(s: State) {
    forall events, states :: Leads(s, events, states) && LocksFresh(s, events, states) ==>
      forall k :: 0 <= k <= |states| ==> AtMostOneBound(Before(s, states, k))
  }

  lemma BeforeAppend(start: State, states: seq<State>, further: seq<State>, k: nat)
    requires states != [] && k <= |states + further|
    ensures Before(start, states + further, k) ==
            if k < |states| then Before(start, states, k) else Before(states[|states| - 1], further, k - |states|)
  {
  }

  lemma Continues(start: State, events: seq<Event>, states: seq<State>, more: seq<Event>, further: seq<State>)
    requires events != [] && Leads(start, events, states) && Leads(states[|states| - 1], more, further)
    ensures Leads(start, events + more, states + further)
  {
    hide Step, Before;
    var n, all, after := |events|, events + more, states + further;
    forall k | 0 <= k < |all| ensures Step(Before(start, after, k), all[k]) == Some(after[k]) {
      BeforeAppend(start, states, further, k);
      if k < n {
        assert Step(Before(start, states, k), events[k]) == Some(states[k]);
      } else {
        assert Step(Before(states[n - 1], further, k - n), more[k - n]) == Some(further[k - n]);
      }
    }
  }

  lemma LeadsBehaves(events: seq<Event>, states: seq<State>)
    requires Leads(INIT, events, states)
    ensures Behaviour([INIT] + states, events)
  {
    hide Step;
    var all := [INIT] + states;
    forall k | 0 <= k < |events| ensures Step(all[k], events[k]) == Some(all[k + 1]) {
      assert Step(Before(INIT, states, k), events[k]) == Some(states[k]);
    }
  }

  lemma {:induction false} LeadsKeepInv(start: State, events: seq<Event>, states: seq<State>, n: nat)
    requires Inv(start) && Leads(start, events, states) && LocksFresh(start, events, states) && n <= |states|
    ensures Inv(Before(start, states, n))
  {
    hide Step, Inv, Fresh;
    if n > 0 {
      LeadsKeepInv(start, events, states, n - 1);
      assert Step(Before(start, states, n - 1), events[n - 1]) == Some(states[n - 1]);
      StepKeepsInv(Before(start, states, n - 1), events[n - 1], states[n - 1]);
    }
  }

  lemma InvBindsOne(s: State)
    requires Inv(s)
    ensures AtMostOneBound(s)
  {
    forall p, q | BoundAt(s, p) && BoundAt(s, q) ensures p == q {
      assert PhaseSound(s, p) && PhaseSound(s, q);
    }
  }

  lemma InvIsSafe(s: State)
    requires Inv(s)
    ensures SafeFrom(s)
  {
    hide Inv, Step, Fresh, AtMostOneBound;
    forall events, states | Leads(s, events, states) && LocksFresh(s, events, states)
      ensures forall k :: 0 <= k <= |states| ==> AtMostOneBound(Before(s, states, k))
    {
      forall k | 0 <= k <= |states| ensures AtMostOneBound(Before(s, states, k)) {
        LeadsKeepInv(s, events, states, k);
        InvBindsOne(Before(s, states, k));
      }
    }
  }

  lemma SafeNow(s: State)
    requires SafeFrom(s)
    ensures AtMostOneBound(s)
  {
    assert Leads(s, [], []) && LocksFresh(s, [], []);
    assert AtMostOneBound(Before(s, [], 0));
  }

  /** A safe state stays safe. */
  lemma SafeStep(s: State, e: Event, t: State)
    requires SafeFrom(s) && Step(s, e) == Some(t) && Fresh(s, e)
    ensures SafeFrom(t)
  {
    hide Step, Fresh, AtMostOneBound;
    forall events, states | Leads(t, events, states) && LocksFresh(t, events, states)
      ensures forall k :: 0 <= k <= |states| ==> AtMostOneBound(Before(t, states, k))
    {
      SafeTail(s, e, t, events, states);
    }
  }

  lemma SafeTail(s: State, e: Event, t: State, events: seq<Event>, states: seq<State>)
    requires SafeFrom(s) && Step(s, e) == Some(t) && Fresh(s, e)
    requires Leads(t, events, states) && LocksFresh(t, events, states)
    ensures forall k :: 0 <= k <= |states| ==> AtMostOneBound(Before(t, states, k))
  {
    hide Step, Fresh, AtMostOneBound;
    var all, after := [e] + events, [t] + states;
    assert Leads(s, [e], [t]);
    Continues(s, [e], [t], events, states);
    forall k | 0 <= k < |all| ensures Fresh(Before(s, after, k), all[k]) {
      if k > 0 {
        BeforeAppend(s, [t], states, k);
      }
    }
    assert LocksFresh(s, all, after);
    forall k | 0 <= k <= |states| ensures AtMostOneBound(Before(t, states, k)) {
      BeforeAppend(s, [t], states, k + 1);
      assert AtMostOneBound(Before(s, after, k + 1));
    }
  }

  /** Process `p` holds a lock that is not the one at the lock path, nobody listens, and nobody holds
      the file at the lock path. */
  ghost predicate Strayed(s: State, p: Process) {
    && At(s, p).Holding? && s.listening == {} && s.nextInode !in s.holder
    && (s.lockAt.Some? ==> s.lockAt.value !in s.holder)
  }

  lemma ListenersHold(s: State, q: Process)
    requires Inv(s) && q in s.listening
    ensures s.lockAt.Some? && s.lockAt.value in s.holder && s.holder[s.lockAt.value] == q
  {
    assert PhaseSound(s, q);
  }

  lemma HeldIsOld(s: State, i: Inode)
    requires Inv(s) && i in s.holder
    ensures i < s.nextInode
  {
    assert HolderSound(s, i) && PhaseSound(s, s.holder[i]);
  }

  lemma NextIsFree(s: State)
    requires Inv(s)
    ensures s.nextInode !in s.holder
  {
    if s.nextInode in s.holder {
      HeldIsOld(s, s.nextInode);
    }
  }

  /** Once `p` has locked a file that is not at the lock path, the holder of the one that is there may
      die. */
  lemma HolderDies(s: State, p: Process) returns (t: State)
    requires Inv(s) && At(s, p).Opened? && At(s, p).lock !in s.holder && s.lockAt != Some(At(s, p).lock)
    requires SafeFrom(Step(s, Flock(p)).value)
    ensures SafeFrom(t) && Strayed(t, p)
  {
    hide SafeFrom;
    var s' := Step(s, Flock(p)).value;
    NextIsFree(s);
    assert PhaseSound(s, p);
    if s.lockAt.Some? && s.lockAt.value in s.holder {
      var h := s.holder[s.lockAt.value];
      assert HolderSound(s, s.lockAt.value) && PhaseSound(s, h);
      t := Step(s', Crash(h)).value;
      SafeStep(s', Crash(h), t);
      forall q | q in s.listening ensures q == h {
        ListenersHold(s, q);
      }
      assert t.listening == {};
    } else {
      t := s';
      forall q | q in s.listening ensures false {
        ListenersHold(s, q);
      }
      assert t.listening == {};
    }
  }

  lemma {:induction false} Unstarted(taken: set<Process>) returns (r: Process)
    ensures forall q :: q in taken ==> q < r
  {
    r := 0;
    if taken != {} {
      var q := Pick(taken);
      r := Unstarted(taken - {q});
      r := if r <= q then q + 1 else r;
      assert forall x :: x in taken ==> x == q || x in taken - {q};
    }
  }

  /** Another process may start then and lock the file at the lock path. */
  lemma AnotherLocks(s: State, p: Process) returns (r: Process, t: State)
    requires SafeFrom(s) && Strayed(s, p)
    ensures SafeFrom(t) && r != p && At(t, p).Holding? && At(t, r).Holding? && t.listening == {}
  {
    hide SafeFrom;
    r := Unstarted(s.phases.Keys);
    assert r !in s.phases;
    var s1 := Step(s, Open(r)).value;
    SafeStep(s, Open(r), s1);
    t := Step(s1, Flock(r)).value;
    SafeStep(s1, Flock(r), t);
  }

  /** Two processes that both hold a lock while nobody listens may both end up bound. */
  lemma BothBind(s: State, p: Process, r: Process)
    requires r != p && At(s, p).Holding? && At(s, r).Holding? && s.listening == {}
    ensures !SafeFrom(s)
  {
    if SafeFrom(s) {
      hide SafeFrom;
      var s1 := Step(s, Probe(p)).value;
      SafeStep(s, Probe(p), s1);
      var s2 := Step(s1, Probe(r)).value;
      SafeStep(s1, Probe(r), s2);
      assert At(s2, p).Checked? && At(s2, r).Checked?;
      var s3 := Step(s2, RemoveStale(p)).value;
      SafeStep(s2, RemoveStale(p), s3);
      var s4 := Step(s3, Listen(p, true)).value;
      SafeStep(s3, Listen(p, true), s4);
      assert At(s4, p).Bound? && At(s4, r).Checked?;
      var s5 := Step(s4, RemoveStale(r)).value;
      SafeStep(s4, RemoveStale(r), s5);
      var s6 := Step(s5, Listen(r, true)).value;
      SafeStep(s5, Listen(r, true), s6);
      assert BoundAt(s6, p) && BoundAt(s6, r);
      SafeNow(s6);
    }
  }

  lemma StaleLockIsUnsafe(s: State, p: Process)
    requires Inv(s) && At(s, p).Opened? && At(s, p).lock !in s.holder && s.lockAt != Some(At(s, p).lock)
    ensures !SafeFrom(Step(s, Flock(p)).value)
  {
    hide SafeFrom, Inv;
    if SafeFrom(Step(s, Flock(p)).value) {
      var t := HolderDies(s, p);
      var r, u := AnotherLocks(t, p);
      BothBind(u, p, r);
    }
  }

  /** After any run whose locks were all fresh, a process may take a free lock exactly when the file
      it locks is still the one at the lock path: then no continuation with fresh locks ever has two
      processes bound, and otherwise some continuation has. The code does not look. */
  lemma LockIsSafeIff(states: seq<State>, events: seq<Event>, n: nat, p: Process)
    requires Behaviour(states, events) && n < |states|
    requires forall k :: 0 <= k < n ==> Fresh(states[k], events[k])
    requires At(states[n], p).Opened? && At(states[n], p).lock !in states[n].holder
    ensures SafeFrom(Step(states[n], Flock(p)).value) <==> states[n].lockAt == Some(At(states[n], p).lock)
  {
    hide SafeFrom, Inv;
    var s := states[n];
    FreshRunsKeepInv(states, events, n);
    if s.lockAt == Some(At(s, p).lock) {
      StepKeepsInv(s, Flock(p), Step(s, Flock(p)).value);
      InvIsSafe(Step(s, Flock(p)).value);
    } else {
      StaleLockIsUnsafe(s, p);
    }
  }

  // ---- The window ----

  /** Process 0 locks. */
  const CLAIM: seq<Event> := [Open(0), Flock(0), Probe(0)]

  const CLAIM_STATES: seq<State> := [
    State(Some(0), 1, map[], None, {}, map[0 := Opened(0)], {}, false),
    State(Some(0), 1, map[0 := 0], None, {}, map[0 := Holding(0)], {}, false),
    State(Some(0), 1, map[0 := 0], None, {}, map[0 := Checked(0)], {}, false)]

  /** It serves, and 1 opens the lock file. */
  const SERVE: seq<Event> := [RemoveStale(0), Listen(0, true), Open(1)]

  const SERVE_STATES: seq<State> := [
    State(Some(0), 1, map[0 := 0], None, {}, map[0 := Cleared(0)], {0}, false),
    State(Some(0), 1, map[0 := 0], Some(0), {0}, map[0 := Bound(0)], {0}, false),
    State(Some(0), 1, map[0 := 0], Some(0), {0}, map[0 := Bound(0), 1 := Opened(0)], {0}, false)]

  /** Process 0 stops, */
  const STOP: seq<Event> := [CloseListener(0), RemoveSocket(0)]

  const STOP_STATES: seq<State> := [
    State(Some(0), 1, map[0 := 0], None, {}, map[0 := Closing(0), 1 := Opened(0)], {0}, false),
    State(Some(0), 1, map[0 := 0], None, {}, map[0 := Releasing(0, Clean), 1 := Opened(0)], {0}, false)]

  /** unlinks that file and closes it. */
  const RELEASE: seq<Event> := [UnlinkLock(0), CloseLock(0)]

  const RELEASE_STATES: seq<State> := [
    State(None, 1, map[0 := 0], None, {}, map[0 := Unlinked(0, Clean), 1 := Opened(0)], {0}, false),
    State(None, 1, map[], None, {}, map[0 := Done(Clean), 1 := Opened(0)], {0}, false)]

  /** Process 1 locks the unlinked file; 2 makes a new one and locks it. */
  const LOCK: seq<Event> := [Flock(1), Open(2), Flock(2)]

  const LOCK_STATES: seq<State> := [
    State(None, 1, map[0 := 1], None, {}, map[0 := Done(Clean), 1 := Holding(0)], {0}, false),
    State(Some(1), 2, map[0 := 1], None, {}, map[0 := Done(Clean), 1 := Holding(0), 2 := Opened(1)], {0}, false),
    State(Some(1), 2, map[0 := 1, 1 := 2], None, {}, map[0 := Done(Clean), 1 := Holding(0), 2 := Holding(1)], {0}, false)]

  /** Nobody answers. */
  const PROBE: seq<Event> := [Probe(1), Probe(2)]

  const PROBE_STATES: seq<State> := [
    State(Some(1), 2, map[0 := 1, 1 := 2], None, {}, map[0 := Done(Clean), 1 := Checked(0), 2 := Holding(1)], {0}, false),
    State(Some(1), 2, map[0 := 1, 1 := 2], None, {}, map[0 := Done(Clean), 1 := Checked(0), 2 := Checked(1)], {0}, false)]

  /** Process 1 listens, */
  const LISTEN_ONE: seq<Event> := [RemoveStale(1), Listen(1, true)]

  const LISTEN_ONE_STATES: seq<State> := [
    State(Some(1), 2, map[0 := 1, 1 := 2], None, {}, map[0 := Done(Clean), 1 := Cleared(0), 2 := Checked(1)], {0, 1}, false),
    State(Some(1), 2, map[0 := 1, 1 := 2], Some(1), {1}, map[0 := Done(Clean), 1 := Bound(0), 2 := Checked(1)], {0, 1}, false)]

  /** and so does 2. */
  const LISTEN_TWO: seq<Event> := [RemoveStale(2), Listen(2, true)]

  const LISTEN_TWO_STATES: seq<State> := [
    State(Some(1), 2, map[0 := 1, 1 := 2], None, {1}, map[0 := Done(Clean), 1 := Bound(0), 2 := Cleared(1)], {0, 1, 2}, true),
    State(Some(1), 2, map[0 := 1, 1 := 2], Some(2), {1, 2}, map[0 := Done(Clean), 1 := Bound(0), 2 := Bound(1)], {0, 1, 2}, true)]

  lemma Claims()
    ensures Leads(INIT, CLAIM, CLAIM_STATES)
  {
    forall k | 0 <= k < |CLAIM| ensures Step(Before(INIT, CLAIM_STATES, k), CLAIM[k]) == Some(CLAIM_STATES[k]) {
      var s, t := Step(Before(INIT, CLAIM_STATES, k), CLAIM[k]).value, CLAIM_STATES[k];
      assert s.holder == t.holder && s.phases == t.phases && s.listening == t.listening && s.removers == t.removers;
    }
  }

  lemma Serves()
    ensures Leads(CLAIM_STATES[2], SERVE, SERVE_STATES)
  {
    forall k | 0 <= k < |SERVE| ensures Step(Before(CLAIM_STATES[2], SERVE_STATES, k), SERVE[k]) == Some(SERVE_STATES[k]) {
      var s, t := Step(Before(CLAIM_STATES[2], SERVE_STATES, k), SERVE[k]).value, SERVE_STATES[k];
      assert s.holder == t.holder && s.phases == t.phases && s.listening == t.listening && s.removers == t.removers;
    }
  }

  lemma Stops()
    ensures Leads(SERVE_STATES[2], STOP, STOP_STATES)
  {
    forall k | 0 <= k < |STOP| ensures Step(Before(SERVE_STATES[2], STOP_STATES, k), STOP[k]) == Some(STOP_STATES[k]) {
      var s, t := Step(Before(SERVE_STATES[2], STOP_STATES, k), STOP[k]).value, STOP_STATES[k];
      assert s.holder == t.holder && s.phases == t.phases && s.listening == t.listening && s.removers == t.removers;
    }
  }

  lemma Releases()
    ensures Leads(STOP_STATES[1], RELEASE, RELEASE_STATES)
  {
    forall k | 0 <= k < |RELEASE| ensures Step(Before(STOP_STATES[1], RELEASE_STATES, k), RELEASE[k]) == Some(RELEASE_STATES[k]) {
      var s, t := Step(Before(STOP_STATES[1], RELEASE_STATES, k), RELEASE[k]).value, RELEASE_STATES[k];
      assert s.holder == t.holder && s.phases == t.phases && s.listening == t.listening && s.removers == t.removers;
    }
  }

  lemma BothLock()
    ensures Leads(RELEASE_STATES[1], LOCK, LOCK_STATES)
  {
    forall k | 0 <= k < |LOCK| ensures Step(Before(RELEASE_STATES[1], LOCK_STATES, k), LOCK[k]) == Some(LOCK_STATES[k]) {
      var s, t := Step(Before(RELEASE_STATES[1], LOCK_STATES, k), LOCK[k]).value, LOCK_STATES[k];
      assert s.holder == t.holder && s.phases == t.phases && s.listening == t.listening && s.removers == t.removers;
    }
  }

  lemma NobodyAnswers()
    ensures Leads(LOCK_STATES[2], PROBE, PROBE_STATES)
  {
    forall k | 0 <= k < |PROBE| ensures Step(Before(LOCK_STATES[2], PROBE_STATES, k), PROBE[k]) == Some(PROBE_STATES[k]) {
      var s, t := Step(Before(LOCK_STATES[2], PROBE_STATES, k), PROBE[k]).value, PROBE_STATES[k];
      assert s.holder == t.holder && s.phases == t.phases && s.listening == t.listening && s.removers == t.removers;
    }
  }

  lemma OneListens()
    ensures Leads(PROBE_STATES[1], LISTEN_ONE, LISTEN_ONE_STATES)
  {
    forall k | 0 <= k < |LISTEN_ONE| ensures Step(Before(PROBE_STATES[1], LISTEN_ONE_STATES, k), LISTEN_ONE[k]) == Some(LISTEN_ONE_STATES[k]) {
      var s, t := Step(Before(PROBE_STATES[1], LISTEN_ONE_STATES, k), LISTEN_ONE[k]).value, LISTEN_ONE_STATES[k];
      assert s.holder == t.holder && s.phases == t.phases && s.listening == t.listening && s.removers == t.removers;
    }
  }

  lemma TwoListens()
    ensures Leads(LISTEN_ONE_STATES[1], LISTEN_TWO, LISTEN_TWO_STATES)
  {
    forall k | 0 <= k < |LISTEN_TWO| ensures Step(Before(LISTEN_ONE_STATES[1], LISTEN_TWO_STATES, k), LISTEN_TWO[k]) == Some(LISTEN_TWO_STATES[k]) {
      var s, t := Step(Before(LISTEN_ONE_STATES[1], LISTEN_TWO_STATES, k), LISTEN_TWO[k]).value, LISTEN_TWO_STATES[k];
      assert s.holder == t.holder && s.phases == t.phases && s.listening == t.listening && s.removers == t.removers;
    }
  }

  lemma Served()
    ensures Leads(INIT, CLAIM + SERVE, CLAIM_STATES + SERVE_STATES)
  {
    Claims();
    Serves();
    Continues(INIT, CLAIM, CLAIM_STATES, SERVE, SERVE_STATES);
  }

  lemma Stopped()
    ensures Leads(SERVE_STATES[2], STOP + RELEASE, STOP_STATES + RELEASE_STATES)
  {
    Stops();
    Releases();
    Continues(SERVE_STATES[2], STOP, STOP_STATES, RELEASE, RELEASE_STATES);
  }

  lemma Locked()
    ensures Leads(RELEASE_STATES[1], LOCK + PROBE, LOCK_STATES + PROBE_STATES)
  {
    BothLock();
    NobodyAnswers();
    Continues(RELEASE_STATES[1], LOCK, LOCK_STATES, PROBE, PROBE_STATES);
  }

  lemma Listened()
    ensures Leads(PROBE_STATES[1], LISTEN_ONE + LISTEN_TWO, LISTEN_ONE_STATES + LISTEN_TWO_STATES)
  {
    OneListens();
    TwoListens();
    Continues(PROBE_STATES[1], LISTEN_ONE, LISTEN_ONE_STATES, LISTEN_TWO, LISTEN_TWO_STATES);
  }

  /** The whole run. */
  const WINDOW := (CLAIM + SERVE) + (STOP + RELEASE) + (LOCK + PROBE) + (LISTEN_ONE + LISTEN_TWO)

  const AFTERWARDS :=
    (CLAIM_STATES + SERVE_STATES) + (STOP_STATES + RELEASE_STATES) +
    (LOCK_STATES + PROBE_STATES) + (LISTEN_ONE_STATES + LISTEN_TWO_STATES)

  const DOUBLE := [INIT] + AFTERWARDS

  lemma BothAreBound()
    ensures var end := DOUBLE[|WINDOW|]; BoundAt(end, 1) && BoundAt(end, 2) && end.harmed
  {
  }

  lemma OnlyOneStale()
    ensures forall k :: 0 <= k < |WINDOW| ==> (Fresh(DOUBLE[k], WINDOW[k]) <==> k != 10)
  {
  }

  /** Such a continuation from a clean start: in this run two processes end up bound, and one has
      removed the socket of the other while it was listening. The only lock taken that was not
      fresh is the one process 1 takes. */
  lemma TheWindowBreaksIt()
    ensures Behaviour(DOUBLE, WINDOW)
    ensures var end := DOUBLE[|WINDOW|]; BoundAt(end, 1) && BoundAt(end, 2) && end.harmed
    ensures forall k :: 0 <= k < |WINDOW| ==> (Fresh(DOUBLE[k], WINDOW[k]) <==> k != 10)
  {
    hide Step, Fresh, At, BoundAt;
    OnlyOneStale();
    Served();
    Stopped();
    Locked();
    Listened();
    Continues(INIT, (CLAIM + SERVE), (CLAIM_STATES + SERVE_STATES),
              STOP + RELEASE, STOP_STATES + RELEASE_STATES);
    Continues(INIT, (CLAIM + SERVE) + (STOP + RELEASE), (CLAIM_STATES + SERVE_STATES) + (STOP_STATES + RELEASE_STATES),
              LOCK + PROBE, LOCK_STATES + PROBE_STATES);
    Continues(INIT, (CLAIM + SERVE) + (STOP + RELEASE) + (LOCK + PROBE), (CLAIM_STATES + SERVE_STATES) + (STOP_STATES + RELEASE_STATES) + (LOCK_STATES + PROBE_STATES),
              LISTEN_ONE + LISTEN_TWO, LISTEN_ONE_STATES + LISTEN_TWO_STATES);
    LeadsBehaves(WINDOW, AFTERWARDS);
    BothAreBound();
  }
}
