/** One-time events, and runs from the empty system in which an instant is handed over twice. */
module DoubleMoves {
  import opened Times
  import opened Calendar
  import opened Recurrence
  import opened Tables
  import opened Redis
  import opened Pipeline
  import opened Conservation
  import opened Dispatching
  import opened Handover
  import opened Repeats
  import opened Overlap

  // ---------- the end of an expansion of one instant ----------

  /** The expansion has stored an entry for t and is gone. */
  ghost predicate HasStored(s: State, s': State, j: nat, e: EventId, t: Instant, id: OccurrenceId) {
    s' == s.(redis := Written(s.redis, Item(id, e, t, 0)), issued := s.issued + {id}, jobs := s.jobs - {j},
             reached := s'.reached)
  }

  function StoreOne(j: nat, id: OccurrenceId): seq<Step> {
    [Ask(j, true)] + [Plan(j, id, Stored)] + [Finish(j)]
  }

  lemma StoreOneIsRun(c: Config, s: State, j: nat, e: EventId, t: Instant, began: Instant, id: OccurrenceId)
    requires j in s.jobs && s.jobs[j] == Job(e, began, [t], Asking)
    requires KeyFor(e, t) !in s.redis.data && id !in s.issued
    ensures Run(c, s, StoreOne(j, id)) && HasStored(s, Final(c, s, StoreOne(j, id)), j, e, t, id)
  {
    hide Run, Final, KeyFor, Enabled, Apply, Written;
    var s1 := WithJob(s, j, Job(e, began, [t], Storing));
    NoSteps(c, s);
    AskGoesOn(c, s, j);
    Then(c, s, [], Ask(j, true), s1);
    assert [] + [Ask(j, true)] == [Ask(j, true)];
    PlanGoesOn(c, s1, j, id);
    var s2 := Apply(c, s1, Plan(j, id, Stored));
    Then(c, s, [Ask(j, true)], Plan(j, id, Stored), s2);
    assert [t][1..] == [];
    FinishGoesOn(c, s2, j);
    assert s2.jobs - {j} == s.jobs - {j};
    Then(c, s, [Ask(j, true)] + [Plan(j, id, Stored)], Finish(j), Apply(c, s2, Finish(j)));
  }

  // ---------- an undisturbed expansion of a one-time event ----------

  function OnceSteps(s: State, j: nat, e: EventId, id: OccurrenceId): seq<Step>
    requires e in s.events
  {
    if KeyFor(e, s.events[e].start) in s.redis.data
    then [BeginOnce(j, e)] + [Ask(j, true)] + [Finish(j)]
    else [BeginOnce(j, e)] + StoreOne(j, id)
  }

  /** What it leaves: an entry, unless there was one. */
  ghost predicate OnceDone(s: State, s': State, e: EventId, id: OccurrenceId)
    requires e in s.events
  {
    var it := Item(id, e, s.events[e].start, 0);
    && s' == s.(redis := s'.redis, issued := s'.issued, reached := s'.reached)
    && (if KeyOf(it) in s.redis.data then s'.redis == s.redis && s'.issued == s.issued
        else s'.redis == Written(s.redis, it) && s'.issued == s.issued + {id})
  }

  lemma PendingOnceIsRun(c: Config, s: State, j: nat, e: EventId, id: OccurrenceId)
    requires Enabled(c, s, BeginOnce(j, e)) && KeyFor(e, s.events[e].start) in s.redis.data
    ensures Run(c, s, OnceSteps(s, j, e, id)) && OnceDone(s, Final(c, s, OnceSteps(s, j, e, id)), e, id)
  {
    hide Run, Final, KeyFor, Extended;
    var t := s.events[e].start;
    var s1 := WithJob(s, j, Job(e, s.clock, [t], Asking));
    NoSteps(c, s);
    Then(c, s, [], BeginOnce(j, e), s1);
    assert [] + [BeginOnce(j, e)] == [BeginOnce(j, e)];
    hide Enabled, Apply;
    AskSkips(c, s1, j);
    var s2 := Apply(c, s1, Ask(j, true));
    Then(c, s, [BeginOnce(j, e)], Ask(j, true), s2);
    assert [t][1..] == [];
    FinishGoesOn(c, s2, j);
    assert s2.jobs - {j} == s.jobs;
    Then(c, s, [BeginOnce(j, e)] + [Ask(j, true)], Finish(j), Apply(c, s2, Finish(j)));
  }

  lemma NewOnceIsRun(c: Config, s: State, j: nat, e: EventId, id: OccurrenceId)
    requires Enabled(c, s, BeginOnce(j, e)) && id !in s.issued && KeyFor(e, s.events[e].start) !in s.redis.data
    ensures Run(c, s, OnceSteps(s, j, e, id)) && OnceDone(s, Final(c, s, OnceSteps(s, j, e, id)), e, id)
  {
    hide Run, Final, KeyFor;
    var t := s.events[e].start;
    var s1 := WithJob(s, j, Job(e, s.clock, [t], Asking));
    NoSteps(c, s);
    Then(c, s, [], BeginOnce(j, e), s1);
    assert [] + [BeginOnce(j, e)] == [BeginOnce(j, e)];
    hide Enabled, Apply;
    StoreOneIsRun(c, s1, j, e, t, s.clock, id);
    RunAppend(c, s, [BeginOnce(j, e)], StoreOne(j, id));
    assert s1.jobs - {j} == s.jobs;
  }

  lemma OnceIsRun(c: Config, s: State, j: nat, e: EventId, id: OccurrenceId)
    requires Enabled(c, s, BeginOnce(j, e)) && id !in s.issued
    ensures Run(c, s, OnceSteps(s, j, e, id)) && OnceDone(s, Final(c, s, OnceSteps(s, j, e, id)), e, id)
  {
    hide Run, Final, OnceSteps, OnceDone;
    if KeyFor(e, s.events[e].start) in s.redis.data {
      PendingOnceIsRun(c, s, j, e, id);
    } else {
      NewOnceIsRun(c, s, j, e, id);
    }
  }

  /** The start lies ahead, or its key is in the hash. */
  predicate Guard(s: State, e: EventId)
    requires e in s.events
  {
    Unix(s.clock) < Unix(s.events[e].start) || KeyFor(e, s.events[e].start) in s.redis.data
  }

  /** A one-time event that has been handed over is not planned again if and only if the guard holds
      when it is expanded; without the guard the mover can take it at once. */
  lemma OneTimeIff(c: Config, s: State, j: nat, e: EventId, id: OccurrenceId)
    requires Traced(c, s) && Once(s, e) && Enabled(c, s, BeginOnce(j, e)) && id !in s.issued
    ensures Run(c, s, OnceSteps(s, j, e, id))
    ensures var s' := Final(c, s, OnceSteps(s, j, e, id));
            var m := (e, s.events[e].start);
            && (Once(s', e) <==> Guard(s, e) || s.moved[m] == 0)
            && (!Guard(s, e) && Unix(m.1) >= 0 ==>
                  Enabled(c, s', Move(KeyFor(e, m.1))) &&
                  Apply(c, s', Move(KeyFor(e, m.1))).moved[m] == s.moved[m] + 1)
  {
    OnceIsRun(c, s, j, e, id);
    var s' := Final(c, s, OnceSteps(s, j, e, id));
    var m := (e, s.events[e].start);
    assert m in s.moved ==> Unix(m.1) <= Unix(s.clock);
    hide Inv, Run, Final, Handed, Known, OnTime;
    var k := KeyFor(e, m.1);
    if k !in s.redis.data {
      assert s'.redis.data[k].at == m.1;
    }
  }

  // ---------- handed over twice: a one-time event ----------

  predicate IsReady(s: State, e: EventId, event: Event) {
    && e in s.events && s.events[e] == event && s.clock == 0 && s.jobs == map[]
    && KeyFor(e, 0) !in s.redis.data && !ExistsAtTime(s.rows, e, 0)
  }

  /** One hand-over of (e, 0) that leaves the system ready for the next. */
  ghost predicate IsCycle(s: State, s': State, e: EventId, event: Event, id: OccurrenceId) {
    IsReady(s', e, event) && s'.moved == s.moved + multiset{(e, 0)} && s'.issued == s.issued + {id} &&
    s'.rows == s.rows && s'.logged == s.logged
  }

  lemma MoveEnds(c: Config, s: State, s': State, e: EventId, event: Event, id: OccurrenceId)
    requires IsReady(s, e, event) && s'.jobs == map[]
    requires s' == s.(redis := s'.redis, issued := s'.issued, reached := s'.reached)
    requires s'.redis == Written(s.redis, Item(id, e, 0, 0)) && s'.issued == s.issued + {id}
    ensures Enabled(c, s', Move(KeyFor(e, 0))) && IsCycle(s, Apply(c, s', Move(KeyFor(e, 0))), e, event, id)
  {
    hide ExistsAtTime;
  }

  lemma OnceCycle(c: Config, s: State, e: EventId, id: OccurrenceId) returns (steps: seq<Step>)
    requires c.gracePeriod >= 0 && c.lookAhead >= 0 && IsReady(s, e, ONCE) && id !in s.issued
    ensures Run(c, s, steps) && IsCycle(s, Final(c, s, steps), e, ONCE, id)
  {
    hide Run, Final, Written, KeyFor, ExistsAtTime;
    OnceIsRun(c, s, 0, e, id);
    var s1 := Final(c, s, OnceSteps(s, 0, e, id));
    steps := OnceSteps(s, 0, e, id);
    MoveEnds(c, s, s1, e, ONCE, id);
    hide Enabled, Apply, IsCycle;
    Then(c, s, steps, Move(KeyFor(e, 0)), Apply(c, s1, Move(KeyFor(e, 0))));
    steps := steps + [Move(KeyFor(e, 0))];
  }

  lemma PutIsReady(c: Config, s0: State, e: EventId, event: Event)
    requires Initial(s0) && s0.clock == 0
    ensures Run(c, s0, [Put(e, event)])
    ensures var s := Final(c, s0, [Put(e, event)]);
            && IsReady(s, e, event) && s.issued == {} && s.moved == multiset{}
            && s.redis == s0.redis && s.hands == map[] && s.rows == [] && s.logged == {}
  {
    var s1 := AfterPut(c, s0, e, event);
    assert Run(c, s1, []) && Final(c, s1, []) == s1;
    assert [Put(e, event)][1..] == [];
  }

  /** A one-time event that is expanded, handed over, and expanded again inside the grace period is
      handed over again, with no failure of any kind. */
  lemma OneTimeEventIsMovedTwice(c: Config, s0: State, e: EventId) returns (steps: seq<Step>)
    requires Initial(s0) && s0.clock == 0 && c.gracePeriod >= 0 && c.lookAhead >= 0
    ensures Run(c, s0, steps) && Final(c, s0, steps).moved[(e, 0)] == 2
  {
    PutIsReady(c, s0, e, ONCE);
    hide Run, Final, Initial;
    var s1 := Final(c, s0, [Put(e, ONCE)]);
    var first := OnceCycle(c, s1, e, 1);
    var s2 := Final(c, s1, first);
    var second := OnceCycle(c, s2, e, 2);
    RunAppend(c, s1, first, second);
    RunAppend(c, s0, [Put(e, ONCE)], first + second);
    steps := [Put(e, ONCE)] + (first + second);
  }

  // ---------- handed over twice: a recurring event without a row ----------

  const EVERY_MINUTE := Event(0, Some(Schedule(Minutely, 1, [], [], [], None, Never)), Active, true)

  predicate OneInstant(c: Config) {
    0 < c.gracePeriod && 0 < c.lookAhead <= MINUTE
  }

  lemma EveryMinute()
    ensures var sch := EVERY_MINUTE.schedule.value;
            Candidates(sch, 0) == [0] && Recurrence.Step(sch, 0) == MINUTE
  {
    hide AddDays, AddMonths, OnDay, Date, MonthOf, DayOf, DayOfInstant, DaysUntil;
  }

  lemma OnlyStart(s: Schedule, t: Instant, lo: Instant, hi: Instant)
    requires WellFormed(s) && lo < t < hi <= Recurrence.Step(s, t) && Candidates(s, t) == [t]
    ensures Occurrences(s, t, lo, hi) == [t]
  {
    hide Recurrence.Step, Candidates;
    assert [t][..0] == [];
    assert Window([t], lo, hi) == [t];
  }

  lemma PlanIsStart(c: Config)
    requires OneInstant(c)
    ensures PlanOf(c, EVERY_MINUTE, 0) == [0]
  {
    EveryMinute();
    OnlyStart(EVERY_MINUTE.schedule.value, 0, -c.gracePeriod, c.lookAhead);
    hide Occurrences;
  }

  function Looked(e: EventId): seq<Step> {
    [Begin(0, e)] + [Look(0, true)]
  }

  /** An expansion that has looked for a row of its only instant and found none. */
  lemma LookIsRun(c: Config, s: State, e: EventId)
    requires OneInstant(c) && e in s.events && s.events[e] == EVERY_MINUTE && s.clock == 0 && s.jobs == map[]
    requires !ExistsAtTime(s.rows, e, 0)
    ensures Run(c, s, Looked(e)) && Final(c, s, Looked(e)) == WithJob(s, 0, Job(e, 0, [0], Asking))
  {
    PlanIsStart(c);
    hide Run, Final, PlanOf, ExistsAtTime;
    NoSteps(c, s);
    var s1 := WithJob(s, 0, Job(e, 0, [0], Looking));
    Then(c, s, [], Begin(0, e), s1);
    assert [] + [Begin(0, e)] == [Begin(0, e)];
    Then(c, s, [Begin(0, e)], Look(0, true), WithJob(s, 0, Job(e, 0, [0], Asking)));
  }

  lemma ListIsRun(c: Config, s: State, e: EventId, id: OccurrenceId)
    requires OneInstant(c) && IsReady(s, e, EVERY_MINUTE) && id !in s.issued
    ensures Run(c, s, Looked(e) + StoreOne(0, id))
    ensures var s' := Final(c, s, Looked(e) + StoreOne(0, id));
            && s' == s.(redis := s'.redis, issued := s'.issued, reached := s'.reached)
            && s'.redis == Written(s.redis, Item(id, e, 0, 0)) && s'.issued == s.issued + {id}
  {
    LookIsRun(c, s, e);
    hide Run, Final, KeyFor, ExistsAtTime, Written, Looked, StoreOne;
    var s1 := WithJob(s, 0, Job(e, 0, [0], Asking));
    StoreOneIsRun(c, s1, 0, e, 0, 0, id);
    RunAppend(c, s, Looked(e), StoreOne(0, id));
    assert s1.jobs - {0} == s.jobs;
  }

  lemma ListCycle(c: Config, s: State, e: EventId, id: OccurrenceId) returns (steps: seq<Step>)
    requires OneInstant(c) && IsReady(s, e, EVERY_MINUTE) && id !in s.issued
    ensures Run(c, s, steps) && IsCycle(s, Final(c, s, steps), e, EVERY_MINUTE, id)
  {
    hide Run, Final, Written, KeyFor, ExistsAtTime, Looked, StoreOne;
    ListIsRun(c, s, e, id);
    steps := Looked(e) + StoreOne(0, id);
    var s1 := Final(c, s, steps);
    MoveEnds(c, s, s1, e, EVERY_MINUTE, id);
    hide Enabled, Apply, IsCycle;
    Then(c, s, steps, Move(KeyFor(e, 0)), Apply(c, s1, Move(KeyFor(e, 0))));
    steps := steps + [Move(KeyFor(e, 0))];
  }

  /** A recurring event whose due instant has left the hash without a row yet, be it queued, in hand or
      lost, is handed over again by the next expansion. */
  lemma UnloggedInstantIsMovedTwice(c: Config, s0: State, e: EventId) returns (steps: seq<Step>)
    requires Initial(s0) && s0.clock == 0 && OneInstant(c)
    ensures Run(c, s0, steps) && Final(c, s0, steps).moved[(e, 0)] == 2 && (e, 0) !in Final(c, s0, steps).logged
  {
    PutIsReady(c, s0, e, EVERY_MINUTE);
    hide Run, Final, Initial;
    var s1 := Final(c, s0, [Put(e, EVERY_MINUTE)]);
    var first := ListCycle(c, s1, e, 1);
    var s2 := Final(c, s1, first);
    var second := ListCycle(c, s2, e, 2);
    RunAppend(c, s1, first, second);
    RunAppend(c, s0, [Put(e, EVERY_MINUTE)], first + second);
    steps := [Put(e, EVERY_MINUTE)] + (first + second);
  }

  // ---------- handed over twice: between the look and the write ----------

  function Dispatched(e: EventId): seq<Step> {
    ([Move(KeyFor(e, 0))] + [Pop(0)]) + ([Fetch(0, Answer(false))] + [Execute(0, true)] + [Log(0, true)])
  }

  lemma TakenIsRun(c: Config, s: State, e: EventId, it: Item)
    requires s.clock == 0 && s.hands == map[] && it.event == e && it.at == 0
    requires s.redis == Store(map[KeyFor(e, 0) := 0], map[KeyFor(e, 0) := it], [], map[])
    ensures var steps := [Move(KeyFor(e, 0))] + [Pop(0)];
            Run(c, s, steps) &&
            var s' := Final(c, s, steps);
            s' == s.(redis := Store(map[], map[], [], map[]), hands := map[0 := Popped(it)],
                     moved := s.moved + multiset{(e, 0)}, tries := s'.tries)
  {
    hide Run, Final;
    var k := KeyFor(e, 0);
    var s1 := s.(redis := Store(map[], map[], [it], map[]), moved := s.moved + multiset{(e, 0)});
    NoSteps(c, s);
    Then(c, s, [], Move(k), s1);
    assert [] + [Move(k)] == [Move(k)];
    Then(c, s, [Move(k)], Pop(0), Apply(c, s1, Pop(0)));
  }

  lemma LoggedIsRun(c: Config, s: State, it: Item)
    requires s.hands == map[0 := Popped(it)] && it.event in s.events && s.events[it.event].hasAction
    ensures var steps := [Fetch(0, Answer(false))] + [Execute(0, true)] + [Log(0, true)];
            Run(c, s, steps) &&
            var s' := Final(c, s, steps);
            s' == s.(hands := s'.hands, rows := s'.rows, logged := s.logged + {(it.event, it.at)})
  {
    hide Run, Final, Working, ScoresFrom, Forgotten, AfterDecide, AfterDeactivate, AfterSettle;
    hide AfterPut, AfterPlan, PlanOf;
    var ev := s.events[it.event];
    var s1 := WithHand(s, 0, Fetched(it, ev));
    NoSteps(c, s);
    Then(c, s, [], Fetch(0, Answer(false)), s1);
    assert [] + [Fetch(0, Answer(false))] == [Fetch(0, Answer(false))];
    var s2 := WithHand(s1, 0, Executed(it, ev, true));
    Then(c, s, [Fetch(0, Answer(false))], Execute(0, true), s2);
    var s3 := AfterLog(s2, 0, true);
    Then(c, s, [Fetch(0, Answer(false))] + [Execute(0, true)], Log(0, true), s3);
  }

  /** The mover and a worker have taken the only entry as far as its logged row. */
  ghost predicate IsDispatched(s: State, s': State, e: EventId) {
    && s' == s.(redis := s'.redis, hands := s'.hands, tries := s'.tries, moved := s'.moved, rows := s'.rows,
                logged := s'.logged)
    && s'.redis == Store(map[], map[], [], map[]) && s'.moved == s.moved + multiset{(e, 0)}
    && s'.logged == s.logged + {(e, 0)}
  }

  lemma DispatchedIsRun(c: Config, s: State, e: EventId, id: OccurrenceId)
    requires s.clock == 0 && e in s.events && s.events[e].hasAction && s.hands == map[]
    requires s.redis == Store(map[KeyFor(e, 0) := 0], map[KeyFor(e, 0) := Item(id, e, 0, 0)], [], map[])
    ensures Run(c, s, Dispatched(e)) && IsDispatched(s, Final(c, s, Dispatched(e)), e)
  {
    hide Run, Final, KeyFor;
    var it := Item(id, e, 0, 0);
    TakenIsRun(c, s, e, it);
    var s1 := Final(c, s, [Move(KeyFor(e, 0))] + [Pop(0)]);
    LoggedIsRun(c, s1, it);
    RunAppend(c, s, [Move(KeyFor(e, 0))] + [Pop(0)], [Fetch(0, Answer(false))] + [Execute(0, true)] + [Log(0, true)]);
  }

  /** An expansion looks, then the entry of the expansion before it is dispatched and logged. */
  lemma LookThenLog(c: Config, s: State, e: EventId)
    requires OneInstant(c) && IsReady(s, e, EVERY_MINUTE) && s.issued == {} && s.hands == map[] && s.moved == multiset{}
    requires s.redis == Store(map[], map[], [], map[])
    ensures var steps := (Looked(e) + StoreOne(0, 1)) + (Looked(e) + Dispatched(e));
            Run(c, s, steps) &&
            var s' := Final(c, s, steps);
            && s'.jobs == map[0 := Job(e, 0, [0], Asking)] && s'.issued == {1} && s'.clock == 0
            && s'.redis == Store(map[], map[], [], map[]) && s'.moved == multiset{(e, 0)} && (e, 0) in s'.logged
  {
    hide Run, Final, Looked, StoreOne, Dispatched, ExistsAtTime;
    ListIsRun(c, s, e, 1);
    var s1 := Final(c, s, Looked(e) + StoreOne(0, 1));
    LookIsRun(c, s1, e);
    var s2 := WithJob(s1, 0, Job(e, 0, [0], Asking));
    assert s2.redis == Store(map[KeyFor(e, 0) := 0], map[KeyFor(e, 0) := Item(1, e, 0, 0)], [], map[]);
    hide KeyFor, Written;
    DispatchedIsRun(c, s2, e, 1);
    RunAppend(c, s1, Looked(e), Dispatched(e));
    RunAppend(c, s, Looked(e) + StoreOne(0, 1), Looked(e) + Dispatched(e));
  }

  lemma StoredAgain(c: Config, s: State, e: EventId)
    requires s.jobs == map[0 := Job(e, 0, [0], Asking)] && s.issued == {1} && s.clock == 0
    requires s.redis == Store(map[], map[], [], map[])
    ensures var steps := StoreOne(0, 2) + [Move(KeyFor(e, 0))];
            Run(c, s, steps) && Final(c, s, steps).moved == s.moved + multiset{(e, 0)}
  {
    hide Run, Final, StoreOne;
    StoreOneIsRun(c, s, 0, e, 0, 0, 2);
    var s1 := Final(c, s, StoreOne(0, 2));
    Then(c, s, StoreOne(0, 2), Move(KeyFor(e, 0)), Apply(c, s1, Move(KeyFor(e, 0))));
  }

  /** Although every instant that left the hash has logged a row when it is written again: an expansion
      that looked before the row was there, and asked after the key had gone, writes it once more. */
  lemma LookAndWriteRace(c: Config, s0: State, e: EventId) returns (before: seq<Step>, last: seq<Step>)
    requires Initial(s0) && s0.clock == 0 && OneInstant(c)
    ensures last == StoreOne(0, 2) + [Move(KeyFor(e, 0))]
    ensures Run(c, s0, before) && Run(c, s0, before + last)
    ensures (e, 0) in Final(c, s0, before).logged && Final(c, s0, before + last).moved[(e, 0)] == 2
  {
    PutIsReady(c, s0, e, EVERY_MINUTE);
    hide Run, Final, ExistsAtTime, Looked, StoreOne, Dispatched, KeyFor;
    var s1 := Final(c, s0, [Put(e, EVERY_MINUTE)]);
    LookThenLog(c, s1, e);
    var more := (Looked(e) + StoreOne(0, 1)) + (Looked(e) + Dispatched(e));
    RunAppend(c, s0, [Put(e, EVERY_MINUTE)], more);
    before := [Put(e, EVERY_MINUTE)] + more;
    last := StoreOne(0, 2) + [Move(KeyFor(e, 0))];
    StoredAgain(c, Final(c, s1, more), e);
    RunAppend(c, s0, before, last);
  }
}
