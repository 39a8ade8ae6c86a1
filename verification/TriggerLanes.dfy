/** The daemon's ticks as a step system: a scheduler and a pressure watcher post triggers into two
    bounded lanes, one consumer takes them with the daily lane first, and callers ask for manual
    ticks directly. All ticks run under one mutex. */
module TriggerLanes {
  import opened Options
  import opened Triggers

  /** A tick belongs to the consumer or to one manual caller. */
  datatype Owner = Consumer | Caller(id: nat)

  /** Where the consumer is: at its non-blocking look at the daily lane, at its blocking select,
      waiting for the mutex, in a tick, or gone. */
  datatype Stage = Look | Select | Waiting(t: TickTrigger) | Ticking(t: TickTrigger) | Gone

  datatype Mark = Begin(who: Owner) | End(who: Owner)

  /** The lanes, the consumer, the mutex, callers waiting for it, and whether shutdown was asked
      for; then history: dailies fired, taken and dropped, pressure triggers taken since the oldest
      queued daily was posted, and the marks of all ticks. */
  datatype State = State(
    daily: nat, pressure: nat, stage: Stage, mutex: Option<Owner>, callers: set<nat>, shutdown: bool,
    fired: nat, taken: nat, dropped: nat, overtaken: nat, log: seq<Mark>)

  const DAILY_CAP: nat := 1
  const PRESSURE_CAP: nat := 4

  const INIT := State(0, 0, Look, None, {}, false, 0, 0, 0, 0, [])

  datatype Event =
    | FireDaily
    | FirePressure
    | AskShutdown
    | ConsumerLook
    | ConsumerTakesDaily
    | ConsumerTakesPressure
    | ConsumerLeaves
    | ConsumerLocks
    | ConsumerEnds
    | CallerAsks(id: nat)
    | CallerLocks(id: nat)
    | CallerEnds(id: nat)

  function TakeDaily(s: State): State
    requires s.daily > 0
  {
    s.(daily := s.daily - 1, taken := s.taken + 1, stage := Waiting(Daily), overtaken := 0)
  }

  /** One step; None when it cannot happen. Where several steps of the blocking select can happen,
      any of them may. */
  function Step(s: State, e: Event): Option<State> {
    match e
    case FireDaily =>
      // The scheduler leaves at shutdown, but the timer may win the race.
      Some(if s.daily < DAILY_CAP then s.(daily := s.daily + 1, fired := s.fired + 1)
           else s.(fired := s.fired + 1, dropped := s.dropped + 1))
    case FirePressure =>
      Some(if s.pressure < PRESSURE_CAP then s.(pressure := s.pressure + 1) else s)
    case AskShutdown => Some(s.(shutdown := true))
    case ConsumerLook =>
      if s.stage != Look then None
      else Some(if s.daily > 0 then TakeDaily(s) else s.(stage := Select))
    case ConsumerTakesDaily =>
      if s.stage != Select || s.daily == 0 then None else Some(TakeDaily(s))
    case ConsumerTakesPressure =>
      if s.stage != Select || s.pressure == 0 then None
      else Some(s.(pressure := s.pressure - 1, stage := Waiting(Pressure),
                   overtaken := if s.daily > 0 then s.overtaken + 1 else 0))
    case ConsumerLeaves =>
      if s.stage != Select || !s.shutdown then None else Some(s.(stage := Gone))
    case ConsumerLocks =>
      if !s.stage.Waiting? || s.mutex.Some? then None
      else Some(s.(stage := Ticking(s.stage.t), mutex := Some(Consumer), log := s.log + [Begin(Consumer)]))
    case ConsumerEnds =>
      if !s.stage.Ticking? then None
      else Some(s.(stage := Look, mutex := None, log := s.log + [End(Consumer)]))
    case CallerAsks(id) =>
      if id in s.callers || s.mutex == Some(Caller(id)) then None else Some(s.(callers := s.callers + {id}))
    case CallerLocks(id) =>
      if id !in s.callers || s.mutex.Some? then None
      else Some(s.(callers := s.callers - {id}, mutex := Some(Caller(id)), log := s.log + [Begin(Caller(id))]))
    case CallerEnds(id) =>
      if s.mutex != Some(Caller(id)) then None
      else Some(s.(mutex := None, log := s.log + [End(Caller(id))]))
  }

  /** Any interleaving. */
  ghost predicate Behaviour(states: seq<State>, events: seq<Event>) {
    && |states| == |events| + 1 && states[0] == INIT
    && forall k :: 0 <= k < |events| ==> Step(states[k], events[k]) == Some(states[k + 1])
  }

  // ---- Overlap ----

  /** Ticks follow one another: each begins when none is open and is ended by its owner. */
  function OpenTick(log: seq<Mark>): Option<Option<Owner>> {
    if log == [] then Some(None)
    else
      var before, last := OpenTick(log[..|log| - 1]), log[|log| - 1];
      match last
      case Begin(who) => if before == Some(None) then Some(Some(who)) else None
      case End(who) => if before == Some(Some(who)) then Some(None) else None
  }

  ghost predicate Inv(s: State) {
    && s.daily <= DAILY_CAP && s.pressure <= PRESSURE_CAP
    && s.fired == s.taken + s.daily + s.dropped
    && OpenTick(s.log) == Some(s.mutex)
    && (s.stage.Ticking? <==> s.mutex == Some(Consumer))
    && s.overtaken <= 1
    && (s.daily == 0 || s.stage == Select ==> s.overtaken == 0)
  }

  lemma MarkOpens(log: seq<Mark>, who: Owner)
    requires OpenTick(log) == Some(None)
    ensures OpenTick(log + [Begin(who)]) == Some(Some(who))
  {
    assert (log + [Begin(who)])[..|log|] == log;
  }

  lemma MarkCloses(log: seq<Mark>, who: Owner)
    requires OpenTick(log) == Some(Some(who))
    ensures OpenTick(log + [End(who)]) == Some(None)
  {
    assert (log + [End(who)])[..|log|] == log;
  }

  lemma StepKeepsInv(s: State, e: Event, s': State)
    requires Inv(s) && Step(s, e) == Some(s')
    ensures Inv(s')
  {
    hide OpenTick;
    match e
    case ConsumerLocks => MarkOpens(s.log, Consumer);
    case ConsumerEnds => MarkCloses(s.log, Consumer);
    case CallerLocks(id) => MarkOpens(s.log, Caller(id));
    case CallerEnds(id) => MarkCloses(s.log, Caller(id));
    case _ =>
  }

  lemma {:induction false} RunsKeepInv(states: seq<State>, events: seq<Event>, n: nat)
    requires Behaviour(states, events) && n < |states|
    ensures Inv(states[n])
  {
    if n > 0 {
      RunsKeepInv(states, events, n - 1);
      StepKeepsInv(states[n - 1], events[n - 1], states[n]);
    }
  }

  /** In every run ticks never overlap: the marks are closed pairs, each ended by who began it,
      but for at most the one tick whose owner holds the mutex. */
  lemma TicksNeverOverlap(states: seq<State>, events: seq<Event>, n: nat)
    requires Behaviour(states, events) && n < |states|
    ensures var log := states[n].log;
            && OpenTick(log) == Some(states[n].mutex)
            && forall k :: 0 <= k < |log| && log[k].Begin? && k + 1 < |log| ==> log[k + 1] == End(log[k].who)
  {
    RunsKeepInv(states, events, n);
    BeginsAreClosed(states[n].log);
  }

  lemma {:induction false} BeginsAreClosed(log: seq<Mark>)
    requires OpenTick(log).Some?
    ensures forall k :: 0 <= k < |log| && log[k].Begin? && k + 1 < |log| ==> log[k + 1] == End(log[k].who)
  {
    if |log| > 0 {
      var front := log[..|log| - 1];
      BeginsAreClosed(front);
      if |front| > 0 && front[|front| - 1].Begin? {
        assert OpenTick(front) == Some(Some(front[|front| - 1].who));
      }
    }
  }

  // ---- The daily lane ----

  /** Pressure triggers the consumer takes among these events. */
  function PressureTaken(events: seq<Event>): nat {
    if events == [] then 0
    else PressureTaken(events[..|events| - 1]) + (if events[|events| - 1] == ConsumerTakesPressure then 1 else 0)
  }

  lemma OneMoreOvertakes(s: State, e: Event, s': State)
    requires Inv(s) && s.daily > 0 && s'.daily > 0 && Step(s, e) == Some(s')
    ensures s'.overtaken == s.overtaken + if e == ConsumerTakesPressure then 1 else 0
  {
  }

  lemma {:induction false} TakenAreCounted(states: seq<State>, events: seq<Event>, i: nat, j: nat)
    requires Behaviour(states, events) && i <= j < |states|
    requires forall k :: i <= k <= j ==> states[k].daily > 0
    ensures PressureTaken(events[i..j]) <= states[j].overtaken
  {
    hide Step, Inv;
    if i < j {
      TakenAreCounted(states, events, i, j - 1);
      RunsKeepInv(states, events, j - 1);
      assert events[i..j][..j - 1 - i] == events[i..j - 1];
      assert Step(states[j - 1], events[j - 1]) == Some(states[j]);
      OneMoreOvertakes(states[j - 1], events[j - 1], states[j]);
    }
  }

  /** From the moment a daily trigger is queued until it is taken, the consumer takes at most one
      pressure trigger. */
  lemma AtMostOnePressureFirst(states: seq<State>, events: seq<Event>, i: nat, j: nat)
    requires Behaviour(states, events) && i <= j < |states|
    requires forall k :: i <= k <= j ==> states[k].daily > 0
    ensures PressureTaken(events[i..j]) <= 1
  {
    TakenAreCounted(states, events, i, j);
    RunsKeepInv(states, events, j);
  }

  /** No daily is lost: every one fired was taken, is queued, or was dropped while an earlier one
      was queued. */
  lemma DailiesAreAccountedFor(states: seq<State>, events: seq<Event>, n: nat)
    requires Behaviour(states, events) && n < |states|
    ensures states[n].fired == states[n].taken + states[n].daily + states[n].dropped
    ensures n < |events| && states[n + 1].dropped > states[n].dropped ==> events[n] == FireDaily && states[n].daily == 1
  {
    RunsKeepInv(states, events, n);
    if n < |events| {
      assert Step(states[n], events[n]) == Some(states[n + 1]);
    }
  }

  // ---- Progress ----

  predicate ConsumerMove(e: Event) {
    e in {ConsumerLook, ConsumerTakesDaily, ConsumerTakesPressure, ConsumerLeaves, ConsumerLocks, ConsumerEnds}
  }

  /** How many moves of its own the consumer still needs, at most, before it takes a queued daily. */
  function Rank(stage: Stage): nat {
    match stage
    case Look => 1
    case Ticking(_) => 2
    case Waiting(_) => 3
    case Select => 4
    case Gone => 0
  }

  ghost predicate Served(s: State, e: Event, s': State) {
    s'.taken > s.taken || e == ConsumerLeaves
  }

  /** While a daily is queued every move of the consumer takes it, or leaves for shutdown, or brings
      it closer; moves of others do not push it back. So it is taken within four moves. */
  lemma DailyIsNear(s: State, e: Event, s': State)
    requires Inv(s) && s.daily > 0 && Step(s, e) == Some(s')
    ensures ConsumerMove(e) ==> Served(s, e, s') || (s'.daily > 0 && Rank(s'.stage) < Rank(s.stage))
    ensures !ConsumerMove(e) ==> s'.daily > 0 && s'.stage == s.stage
  {
  }

  function Moves(events: seq<Event>): nat {
    if events == [] then 0
    else Moves(events[..|events| - 1]) + (if ConsumerMove(events[|events| - 1]) then 1 else 0)
  }

  /** If the consumer makes four moves after a daily is queued, it has taken one or left. */
  lemma {:induction false} FourMovesSuffice(states: seq<State>, events: seq<Event>, i: nat, j: nat)
    requires Behaviour(states, events) && i <= j < |states| && states[i].daily > 0
    requires forall k :: i <= k < j ==> !Served(states[k], events[k], states[k + 1])
    ensures states[j].daily > 0 && Moves(events[i..j]) + Rank(states[j].stage) <= 4
  {
    hide Step, Inv, Served;
    if i < j {
      FourMovesSuffice(states, events, i, j - 1);
      RunsKeepInv(states, events, j - 1);
      assert events[i..j][..j - 1 - i] == events[i..j - 1];
      assert Step(states[j - 1], events[j - 1]) == Some(states[j]);
      DailyIsNear(states[j - 1], events[j - 1], states[j]);
    } else {
      assert events[i..j] == [];
    }
  }

  // ---- What is taken and what is run ----

  /** What the consumer holds or runs. */
  function Holding(s: State): Option<TickTrigger> {
    match s.stage case Waiting(t) => Some(t) case Ticking(t) => Some(t) case _ => None
  }

  /** A trigger taken from the daily lane is run as a daily tick and one from the pressure lane as a
      pressure tick, and no tick is run that was not taken. */
  lemma RunsWhatItTook(s: State, e: Event, s': State)
    requires Step(s, e) == Some(s')
    ensures s'.daily < s.daily ==> Holding(s') == Some(Daily) && s'.taken == s.taken + 1
    ensures s'.pressure < s.pressure ==> Holding(s') == Some(Pressure)
    ensures Holding(s').Some? && Holding(s') != Holding(s) ==> s'.daily < s.daily || s'.pressure < s.pressure
    ensures s'.stage.Ticking? && !s.stage.Ticking? ==> s.stage == Waiting(s'.stage.t) && s'.log == s.log + [Begin(Consumer)]
    ensures s.stage.Ticking? && !s'.stage.Ticking? ==> s'.stage == Look && s'.log == s.log + [End(Consumer)]
  {
  }

  /** Pressure triggers posted while fewer than four are queued. */
  function PressureKept(states: seq<State>, events: seq<Event>, n: nat): nat
    requires n <= |events| && n <= |states|
  {
    if n == 0 then 0
    else PressureKept(states, events, n - 1) +
         (if events[n - 1] == FirePressure && states[n - 1].pressure < 4 then 1 else 0)
  }

  lemma PressureStep(s: State, e: Event, s': State)
    requires Step(s, e) == Some(s') && s.pressure <= 4
    ensures s'.pressure == s.pressure + (if e == FirePressure && s.pressure < 4 then 1 else 0)
                           - (if e == ConsumerTakesPressure then 1 else 0)
  {
  }

  /** No pressure trigger is lost either, but those posted while four are queued. */
  lemma {:induction false} PressureIsAccountedFor(states: seq<State>, events: seq<Event>, n: nat)
    requires Behaviour(states, events) && n < |states|
    ensures states[n].pressure <= 4
    ensures states[n].pressure + PressureTaken(events[..n]) == PressureKept(states, events, n)
  {
    hide Step;
    if n == 0 {
      assert events[..0] == [];
    } else {
      PressureIsAccountedFor(states, events, n - 1);
      assert Step(states[n - 1], events[n - 1]) == Some(states[n]);
      PressureStep(states[n - 1], events[n - 1], states[n]);
      assert events[..n][..n - 1] == events[..n - 1] && events[..n][n - 1] == events[n - 1];
    }
  }

  /** Dailies that were fired. */
  function DailiesFired(events: seq<Event>): nat {
    if events == [] then 0
    else DailiesFired(events[..|events| - 1]) + (if events[|events| - 1] == FireDaily then 1 else 0)
  }

  lemma HistoryStep(s: State, e: Event, s': State)
    requires Step(s, e) == Some(s')
    ensures s'.fired == s.fired + if e == FireDaily then 1 else 0
    ensures s'.shutdown <==> s.shutdown || e == AskShutdown
    ensures s'.stage == Gone && s.stage != Gone ==> s.shutdown
  {
  }

  /** The history counts what happened, and the consumer leaves only once shutdown was asked for. */
  lemma {:induction false} HistoryIsTrue(states: seq<State>, events: seq<Event>, n: nat)
    requires Behaviour(states, events) && n < |states|
    ensures states[n].fired == DailiesFired(events[..n])
    ensures states[n].stage == Gone ==> AskShutdown in events[..n]
    ensures states[n].shutdown <==> AskShutdown in events[..n]
  {
    hide Step;
    if n == 0 {
      assert events[..0] == [];
    } else {
      HistoryIsTrue(states, events, n - 1);
      assert Step(states[n - 1], events[n - 1]) == Some(states[n]);
      HistoryStep(states[n - 1], events[n - 1], states[n]);
      assert events[..n] == events[..n - 1] + [events[n - 1]];
    }
  }

  /** After shutdown was asked for, a consumer at its select can leave; so can nobody else. */
  lemma MayLeaveIff(s: State)
    ensures Step(s, ConsumerLeaves).Some? <==> s.stage == Select && s.shutdown
  {
  }
}
