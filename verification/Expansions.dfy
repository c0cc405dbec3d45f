/** Expansions of a recurring event with nothing in between: exactly when they hand an instant over again,
    said in the rows and hash entries that the expander reads. */
module Expansions {
  import opened Times
  import opened Calendar
  import opened Recurrence
  import opened Tables
  import opened Redis
  import opened Pipeline
  import opened Conservation
  import opened Dispatching
  import opened Handover
  import opened Repeats
  import opened Expander

  // ---------- the instants of a series lie in distinct seconds ----------

  /** Whole days and whole seconds leave the part of the second alone. */
  lemma SamePart(t: Instant, days: int, seconds: int)
    ensures (t + days * DAY) % NS == t % NS && OnDay(t, days) % NS == t % NS && (t + seconds * NS) % NS == t % NS
  {
    assert t + days * DAY == t + (days * 86400) * NS;
    assert OnDay(t, days) == t + ((days - t / DAY) * 86400) * NS;
    Multiples(t, days * 86400);
    Multiples(t, (days - t / DAY) * 86400);
    Multiples(t, seconds);
  }

  lemma Multiples(t: int, q: int)
    ensures (t + q * NS) % NS == t % NS
  {
  }

  lemma StepPart(s: Schedule, t: Instant)
    ensures Recurrence.Step(s, t) % NS == t % NS
  {
    hide Date, MonthOf, DayOf, DayOfInstant, OnDay;
    SamePart(t, s.interval, s.interval * 60);
    SamePart(t, 7 * s.interval, s.interval * 3600);
    var d := DayOfInstant(t);
    SamePart(t, Date(MonthOf(d) + s.interval, DayOf(d)), 0);
    SamePart(t, Date(MonthOf(d) + 12 * s.interval, DayOf(d)), 0);
  }

  lemma CandidatePart(s: Schedule, t: Instant, x: Instant)
    requires x in Candidates(s, t)
    ensures x % NS == t % NS
  {
    hide Date, MonthOf, DayOf, DayOfInstant, OnDay, DaysUntil, WeekdayNumber;
    forall d: int
      ensures OnDay(t, d) % NS == t % NS && AddDays(t, d) % NS == t % NS
    {
      SamePart(t, d, 0);
    }
    hide AddDays;
  }

  lemma {:induction false} OccurrencePart(s: Schedule, t: Instant, lo: Instant, hi: Instant, x: Instant)
    requires WellFormed(s) && x in Occurrences(s, t, lo, hi)
    ensures x % NS == t % NS
    decreases Max(0, hi - t)
  {
    hide Candidates, Recurrence.Step;
    StepAdvances(s, t);
    if x in Window(Candidates(s, t), lo, hi) {
      CandidatePart(s, t, x);
    } else {
      StepPart(s, t);
      OccurrencePart(s, Recurrence.Step(s, t), lo, hi, x);
    }
  }

  ghost predicate DistinctSeconds(ts: seq<Instant>) {
    forall a, b :: a in ts && b in ts && Unix(a) == Unix(b) ==> a == b
  }

  lemma PlanPart(c: Config, e: Event, now: Instant, x: Instant)
    requires Expandable(e) && x in PlanOf(c, e, now)
    ensures x % NS == e.start % NS
  {
    hide Occurrences;
    var sch := e.schedule.value;
    assert x in Occurrences(sch, e.start, now - c.gracePeriod, now + c.lookAhead);
    OccurrencePart(sch, e.start, now - c.gracePeriod, now + c.lookAhead, x);
  }

  /** No two instants of one list share a Redis key. */
  lemma PlansHaveDistinctSeconds(c: Config, e: Event, now: Instant)
    requires Expandable(e)
    ensures DistinctSeconds(PlanOf(c, e, now))
  {
    hide PlanOf;
    forall a, b | a in PlanOf(c, e, now) && b in PlanOf(c, e, now) && Unix(a) == Unix(b)
      ensures a == b
    {
      PlanPart(c, e, now, a);
      PlanPart(c, e, now, b);
    }
  }

  // ---------- one expansion ----------

  /** Every listed instant that was handed over has a row or an entry. */
  ghost predicate IsSafe(s: State, e: EventId, ts: seq<Instant>) {
    forall t :: t in ts && (e, t) in s.moved ==> ExistsAtTime(s.rows, e, t) || KeyFor(e, t) in s.redis.data
  }

  lemma {:induction false} PlannedKeys(s: State, e: EventId, ts: seq<Instant>, ids: seq<OccurrenceId>)
    requires |ids| == |ts|
    ensures var s' := PlannedState(s, e, ts, ids);
            && (forall k :: k in s.redis.data ==> k in s'.redis.data)
            && (forall k :: k in s'.redis.data ==> k in s.redis.data || exists t :: t in ts && k == KeyFor(e, t))
  {
    hide ExistsAtTime, Unix;
    if ts != [] {
      PlannedKeys(s, e, ts[..|ts| - 1], ids[..|ts| - 1]);
    }
  }

  lemma WrittenOnceIff(s: State, e: EventId, t: Instant, id: OccurrenceId)
    requires KeyFor(e, t) !in s.redis.data
    ensures var s' := s.(redis := Written(s.redis, Item(id, e, t, 0)), issued := s.issued + {id});
            Once(s', e) <==> Once(s, e) && (e, t) !in s.moved
  {
    var k := KeyFor(e, t);
    var s' := s.(redis := Written(s.redis, Item(id, e, t, 0)), issued := s.issued + {id});
    hide KeyFor;
    assert s'.redis.data[k].at == t;
    assert forall x :: x in s.redis.data ==> x in s'.redis.data && s'.redis.data[x] == s.redis.data[x];
  }

  lemma {:induction false} PlannedOnceIff(s: State, e: EventId, ts: seq<Instant>, ids: seq<OccurrenceId>)
    requires |ids| == |ts| && Once(s, e) && DistinctSeconds(ts)
    ensures Once(PlannedState(s, e, ts, ids), e) <==> IsSafe(s, e, ts)
  {
    if ts != [] {
      var n := |ts| - 1;
      var t, front := ts[n], PlannedState(s, e, ts[..n], ids[..n]);
      assert ts == ts[..n] + [t];
      PlannedOnceIff(s, e, ts[..n], ids[..n]);
      PlannedKeys(s, e, ts[..n], ids[..n]);
      SafeWithLast(s, e, ts[..n], t);
      if !ExistsAtTime(s.rows, e, t) && KeyFor(e, t) !in front.redis.data {
        WrittenOnceIff(front, e, t, ids[n]);
      } else if !ExistsAtTime(s.rows, e, t) && KeyFor(e, t) !in s.redis.data {
        var u :| u in ts[..n] && KeyFor(e, t) == KeyFor(e, u);
        assert u in ts && t in ts && u == t;
      }
      hide Once, IsSafe, KeyFor, ExistsAtTime;
    }
  }

  lemma SafeWithLast(s: State, e: EventId, ts: seq<Instant>, t: Instant)
    ensures IsSafe(s, e, ts + [t]) <==>
            IsSafe(s, e, ts) && ((e, t) in s.moved ==> ExistsAtTime(s.rows, e, t) || KeyFor(e, t) in s.redis.data)
    ensures t in ts && IsSafe(s, e, ts) ==>
              ((e, t) in s.moved ==> ExistsAtTime(s.rows, e, t) || KeyFor(e, t) in s.redis.data)
  {
    hide ExistsAtTime, KeyFor;
    assert t in ts + [t];
  }

  /** An expansion with nothing in between leaves every instant of e handed over at most once, and none that
      was handed over pending, if and only if each listed instant that was handed over has a row or an entry
      when it begins. */
  lemma ExpansionKeepsOnceIff(c: Config, s: State, e: EventId, ids: seq<OccurrenceId>)
    requires e in s.events && Expandable(s.events[e]) && |ids| == |PlanOf(c, s.events[e], s.clock)| && Once(s, e)
    ensures Once(Expanded(c, s, e, ids), e) <==> IsSafe(s, e, PlanOf(c, s.events[e], s.clock))
  {
    var plan := PlanOf(c, s.events[e], s.clock);
    PlansHaveDistinctSeconds(c, s.events[e], s.clock);
    PlannedOnceIff(s, e, plan, ids);
    hide PlanOf, PlannedState, IsSafe;
  }

  // ---------- runs of whole expansions ----------

  /** A whole expansion of the event, or any single step that does not write an entry of it. */
  datatype Turn = Whole(j: nat, ids: seq<OccurrenceId>) | Single(step: Step)

  ghost predicate CanTake(c: Config, s: State, e: EventId, turn: Turn) {
    match turn
    case Whole(j, ids) =>
      Enabled(c, s, Begin(j, e)) && |ids| == |PlanOf(c, s.events[e], s.clock)| && Unissued(s, ids)
    case Single(step) => Enabled(c, s, step) && (step.Plan? ==> s.jobs[step.j].event != e)
  }

  function Taken(c: Config, s: State, e: EventId, turn: Turn): State
    requires CanTake(c, s, e, turn)
  {
    match turn
    case Whole(_, ids) => Expanded(c, s, e, ids)
    case Single(step) => Apply(c, s, step)
  }

  ghost predicate TurnRun(c: Config, s: State, e: EventId, turns: seq<Turn>)
    decreases |turns|
  {
    turns == [] || (CanTake(c, s, e, turns[0]) && TurnRun(c, Taken(c, s, e, turns[0]), e, turns[1..]))
  }

  ghost function Last(c: Config, s: State, e: EventId, turns: seq<Turn>): State
    requires TurnRun(c, s, e, turns)
    decreases |turns|
  {
    if turns == [] then s else Last(c, Taken(c, s, e, turns[0]), e, turns[1..])
  }

  ghost predicate OnceAtTurns(c: Config, s: State, e: EventId, turns: seq<Turn>)
    requires TurnRun(c, s, e, turns)
    decreases |turns|
  {
    Once(s, e) && (turns != [] ==> OnceAtTurns(c, Taken(c, s, e, turns[0]), e, turns[1..]))
  }

  /** An expansion begins safe. */
  ghost predicate BeginsSafe(c: Config, s: State, e: EventId, turn: Turn)
    requires CanTake(c, s, e, turn)
  {
    turn.Whole? ==> IsSafe(s, e, PlanOf(c, s.events[e], s.clock))
  }

  ghost predicate SafeTurns(c: Config, s: State, e: EventId, turns: seq<Turn>)
    requires TurnRun(c, s, e, turns)
    decreases |turns|
  {
    turns != [] ==> BeginsSafe(c, s, e, turns[0]) && SafeTurns(c, Taken(c, s, e, turns[0]), e, turns[1..])
  }

  /** A turn is a run of the state machine. */
  lemma TurnIsSteps(c: Config, s: State, e: EventId, turn: Turn) returns (steps: seq<Step>)
    requires CanTake(c, s, e, turn)
    ensures Run(c, s, steps) && Final(c, s, steps) == Taken(c, s, e, turn)
  {
    match turn
    case Whole(j, ids) =>
      hide PlanOf, Expanded, Run, Final, Enabled;
      steps := ExpansionIsRun(c, s, j, e, ids);
    case Single(step) =>
      hide Enabled, Apply, Run, Final;
      NoSteps(c, s);
      Then(c, s, [], step, Apply(c, s, step));
      steps := [] + [step];
  }

  lemma TurnKeepsTraced(c: Config, s: State, e: EventId, turn: Turn)
    requires Traced(c, s) && CanTake(c, s, e, turn)
    ensures Traced(c, Taken(c, s, e, turn))
  {
    hide Traced, CanTake, Taken, Run, Final;
    var steps := TurnIsSteps(c, s, e, turn);
    RunKeepsTraced(c, s, steps);
  }

  lemma TurnKeepsOnceIff(c: Config, s: State, e: EventId, turn: Turn)
    requires Traced(c, s) && CanTake(c, s, e, turn) && Once(s, e)
    ensures Once(Taken(c, s, e, turn), e) <==> BeginsSafe(c, s, e, turn)
  {
    match turn
    case Whole(j, ids) =>
      hide PlanOf, Expanded, IsSafe, Once, Inv, Handed, OnTime, Known;
      ExpansionKeepsOnceIff(c, s, e, ids);
    case Single(step) =>
      assert AllOk(c, s);
      hide Apply, Once, Inv, Handed, OnTime, Known;
      StepKeepsOnceIff(c, s, step, e);
  }

  lemma {:induction false} OnceAtTurnsIff(c: Config, s: State, e: EventId, turns: seq<Turn>)
    requires Traced(c, s) && Once(s, e) && TurnRun(c, s, e, turns)
    ensures OnceAtTurns(c, s, e, turns) <==> SafeTurns(c, s, e, turns)
    decreases |turns|
  {
    hide Traced, CanTake, Taken, Once, BeginsSafe;
    if turns != [] {
      var s' := Taken(c, s, e, turns[0]);
      TurnKeepsTraced(c, s, e, turns[0]);
      TurnKeepsOnceIff(c, s, e, turns[0]);
      if Once(s', e) {
        OnceAtTurnsIff(c, s', e, turns[1..]);
      } else {
        assert !OnceAtTurns(c, s', e, turns[1..]);
      }
    }
  }

  lemma InitiallyOnce(c: Config, s: State, e: EventId)
    requires Initial(s)
    ensures Traced(c, s) && Once(s, e)
  {
    InitialInv(c, s);
  }

  /** In every run from the empty system whose expansions of e have nothing in between, everything else
      interleaving between them: no instant of e is handed over twice, or pending after it was handed over, at
      any point between expansions if and only if each expansion begins with a row or an entry for every
      listed instant that was handed over. */
  lemma WholeExpansionsMoveOnceIff(c: Config, s0: State, e: EventId, turns: seq<Turn>)
    requires Initial(s0) && TurnRun(c, s0, e, turns)
    ensures OnceAtTurns(c, s0, e, turns) <==> SafeTurns(c, s0, e, turns)
  {
    InitiallyOnce(c, s0, e);
    hide Initial, Traced, Once;
    OnceAtTurnsIff(c, s0, e, turns);
  }

  // ---------- a guard that can be read ----------

  /** Every listed instant is not due, or has a row or an entry. */
  predicate IsGuarded(s: State, e: EventId, ts: seq<Instant>) {
    forall t :: t in ts ==> Unix(s.clock) < Unix(t) || ExistsAtTime(s.rows, e, t) || KeyFor(e, t) in s.redis.data
  }

  /** Every due listed instant has been handed over, or has a row or an entry: none was missed. */
  ghost predicate NoneMissed(s: State, e: EventId, ts: seq<Instant>) {
    forall t :: t in ts && Unix(t) <= Unix(s.clock) ==>
      (e, t) in s.moved || ExistsAtTime(s.rows, e, t) || KeyFor(e, t) in s.redis.data
  }

  /** The guard, read from clock, rows and hash alone, is enough; and it is necessary wherever no due instant
      was missed. */
  lemma GuardedIffSafe(s: State, e: EventId, ts: seq<Instant>)
    requires OnTime(s)
    ensures IsGuarded(s, e, ts) ==> IsSafe(s, e, ts)
    ensures NoneMissed(s, e, ts) ==> (IsGuarded(s, e, ts) <==> IsSafe(s, e, ts))
  {
    hide ExistsAtTime, KeyFor, Unix;
    forall t | (e, t) in s.moved
      ensures Unix(t) <= Unix(s.clock)
    {
      assert (e, t).1 == t;
    }
  }

  ghost predicate GuardedTurns(c: Config, s: State, e: EventId, turns: seq<Turn>)
    requires TurnRun(c, s, e, turns)
    decreases |turns|
  {
    turns != [] ==>
      && (turns[0].Whole? ==> IsGuarded(s, e, PlanOf(c, s.events[e], s.clock)))
      && GuardedTurns(c, Taken(c, s, e, turns[0]), e, turns[1..])
  }

  lemma {:induction false} GuardedIsSafe(c: Config, s: State, e: EventId, turns: seq<Turn>)
    requires Traced(c, s) && TurnRun(c, s, e, turns) && GuardedTurns(c, s, e, turns)
    ensures SafeTurns(c, s, e, turns)
    decreases |turns|
  {
    hide CanTake, Taken, Inv, Handed, OnTime, Known, IsGuarded, IsSafe, PlanOf;
    if turns != [] {
      if turns[0].Whole? {
        PlanIsDefined(c, s, e, turns[0]);
        GuardedIffSafe(s, e, PlanOf(c, s.events[e], s.clock));
      }
      TurnKeepsTraced(c, s, e, turns[0]);
      GuardedIsSafe(c, Taken(c, s, e, turns[0]), e, turns[1..]);
    }
  }

  lemma PlanIsDefined(c: Config, s: State, e: EventId, turn: Turn)
    requires CanTake(c, s, e, turn) && turn.Whole?
    ensures e in s.events && Expandable(s.events[e])
  {
  }

  lemma {:induction false} LastIsOnce(c: Config, s: State, e: EventId, turns: seq<Turn>)
    requires TurnRun(c, s, e, turns) && OnceAtTurns(c, s, e, turns)
    ensures Once(Last(c, s, e, turns), e)
    decreases |turns|
  {
    hide CanTake, Taken, Once;
    if turns != [] {
      LastIsOnce(c, Taken(c, s, e, turns[0]), e, turns[1..]);
    }
  }

  /** With the guard at every expansion each instant is handed over at most once: whatever was lost, archived
      or logged late, and with no condition on the retention. */
  lemma GuardedExpansionsMoveOnce(c: Config, s0: State, e: EventId, turns: seq<Turn>, t: Instant)
    requires Initial(s0) && TurnRun(c, s0, e, turns) && GuardedTurns(c, s0, e, turns)
    ensures Last(c, s0, e, turns).moved[(e, t)] <= 1
  {
    InitiallyOnce(c, s0, e);
    hide Initial, Traced;
    GuardedIsSafe(c, s0, e, turns);
    OnceAtTurnsIff(c, s0, e, turns);
    LastIsOnce(c, s0, e, turns);
  }
}
