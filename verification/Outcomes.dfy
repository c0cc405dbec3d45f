/** What dispatching does to events and occurrences, and why: when an event is made inactive, when an
    occurrence is dropped and when it is completed, in every run. */
module Outcomes {
  import opened Times
  import opened Recurrence
  import opened Tables
  import opened Redis
  import opened Pipeline
  import opened Conservation
  import opened Dispatching
  import Inactivation

  // ---------- what happened in a run ----------

  /** Some step of the run, taken in the state it was taken in, is as described. */
  ghost predicate Happened(c: Config, s: State, steps: seq<Step>, moment: (State, Step) -> bool)
    requires Run(c, s, steps)
    decreases |steps|
  {
    steps != [] && (moment(s, steps[0]) || Happened(c, Apply(c, s, steps[0]), steps[1..], moment))
  }

  /** What holds at the end and did not hold at the start began to hold with some step. */
  lemma {:induction false} Began(c: Config, s: State, steps: seq<Step>, holds: State -> bool,
                                 moment: (State, Step) -> bool)
    requires Run(c, s, steps) && holds(Final(c, s, steps)) && !holds(s)
    requires forall s1, x :: Enabled(c, s1, x) && holds(Apply(c, s1, x)) ==> holds(s1) || moment(s1, x)
    ensures Happened(c, s, steps, moment)
    decreases |steps|
  {
    hide Enabled, Apply;
    if steps != [] {
      var s1 := Apply(c, s, steps[0]);
      if !holds(s1) {
        Began(c, s1, steps[1..], holds, moment);
      }
    }
  }

  lemma {:induction false} HappenedOnce(c: Config, s: State, steps: seq<Step>, moment: (State, Step) -> bool)
    returns (at: State, step: Step)
    requires Run(c, s, steps) && Happened(c, s, steps, moment)
    ensures moment(at, step)
    decreases |steps|
  {
    hide Enabled, Apply;
    if moment(s, steps[0]) {
      at, step := s, steps[0];
    } else {
      at, step := HappenedOnce(c, Apply(c, s, steps[0]), steps[1..], moment);
    }
  }

  // ---------- a worker's hand ----------

  predicate IsOwnStep(step: Step, w: nat) {
    (step.Pop? || step.Fetch? || step.Execute? || step.Log? || step.Decide? || step.Deactivate? || step.Settle? ||
     step.Crash?) && step.w == w
  }

  lemma OthersKeepHand(c: Config, s: State, step: Step, w: nat)
    requires Enabled(c, s, step) && !IsOwnStep(step, w)
    ensures w in Apply(c, s, step).hands <==> w in s.hands
    ensures w in s.hands ==> Apply(c, s, step).hands[w] == s.hands[w]
  {
    hide PlanOf, Extended, AfterLook, AfterAsk, AfterPlan, AfterPut, Forgotten, KeptEvents, RecentRows, Filter;
    hide Working, SameTables, ShouldDeactivate, Cleaned, Diagnosed;
    if step.Fetch? {
      FetchShape(s, step.w, step.read);
      hide AfterFetch;
    }
  }

  /** Why a worker may write its event inactive, all of it as the worker sees it when it decides: the event was
      active, and it is one-time, or at least Count of its rows are completed, or its Until has passed. */
  predicate Justifies(s: State, id: EventId, ev: Event, counted: bool) {
    && ev.status == Active
    && (ev.schedule == None ||
        (ev.schedule.value.count.Some? && counted &&
         |CompletedAt(s.rows, id)| >= ev.schedule.value.count.value) ||
        (ev.schedule.value.until.Before? && s.clock > ev.schedule.value.until.bound))
  }

  function Holding(w: nat, h: Hand): State -> bool {
    (s: State) => w in s.hands && s.hands[w] == h
  }

  /** The worker, with a success logged or not, decides with a reason. */
  function Deciding(w: nat, it: Item, ev: Event): (State, Step) -> bool {
    (s: State, x: Step) =>
      x.Decide? && x.w == w && w in s.hands && s.hands[w] == Logged(it, ev, true) &&
      Justifies(s, it.event, ev, x.counted)
  }

  lemma OnlyDecisions(c: Config, s: State, step: Step, w: nat, it: Item, ev: Event)
    requires Enabled(c, s, step) && Holding(w, Deactivating(it, ev))(Apply(c, s, step))
    ensures Holding(w, Deactivating(it, ev))(s) || Deciding(w, it, ev)(s, step)
  {
    if IsOwnStep(step, w) {
      hide Working, SameTables, CountCompleted, CompletedAt;
      if step.Decide? {
        CountCompletedExact(s.rows, it.event);
      } else if step.Fetch? {
        FetchShape(s, w, step.read);
        hide AfterFetch;
      } else {
        hide ShouldDeactivate, Insert;
      }
    } else {
      OthersKeepHand(c, s, step, w);
      hide Apply, Enabled;
    }
  }

  /** The worker's action has succeeded. */
  function HoldingSuccess(w: nat, it: Item, ev: Event): State -> bool {
    (s: State) =>
      w in s.hands && s.hands[w] in {Executed(it, ev, true), Logged(it, ev, true), Deactivating(it, ev)}
  }

  function Executing(w: nat, it: Item, ev: Event): (State, Step) -> bool {
    (s: State, x: Step) => x == Execute(w, true) && w in s.hands && s.hands[w] == Fetched(it, ev)
  }

  lemma OnlyExecutions(c: Config, s: State, step: Step, w: nat, it: Item, ev: Event)
    requires Enabled(c, s, step) && HoldingSuccess(w, it, ev)(Apply(c, s, step))
    ensures HoldingSuccess(w, it, ev)(s) || Executing(w, it, ev)(s, step)
  {
    if IsOwnStep(step, w) {
      hide Working, SameTables, ShouldDeactivate, Insert;
      if step.Fetch? {
        FetchShape(s, w, step.read);
        hide AfterFetch;
      }
    } else {
      OthersKeepHand(c, s, step, w);
      hide Apply, Enabled;
    }
  }

  /** The worker carries the event as it has read it. */
  function HoldingRow(w: nat, it: Item, ev: Event): State -> bool {
    (s: State) =>
      w in s.hands && s.hands[w] in {Fetched(it, ev), Executed(it, ev, true), Executed(it, ev, false),
                                     Logged(it, ev, true), Logged(it, ev, false), Deactivating(it, ev)}
  }

  function Reading(w: nat, it: Item, ev: Event): (State, Step) -> bool {
    (s: State, x: Step) =>
      x.Fetch? && x.w == w && x.read.Answer? && w in s.hands && s.hands[w] == Popped(it) &&
      it.event in s.events && s.events[it.event] == ev && ev.hasAction
  }

  lemma FetchReads(s: State, w: nat, read: Read, it: Item, ev: Event)
    requires w in s.hands && s.hands[w].Popped? && HoldingRow(w, it, ev)(AfterFetch(s, w, read))
    ensures Reading(w, it, ev)(s, Fetch(w, read))
  {
    hide Working, SameTables, Insert, Cleaned, Diagnosed, ScoresFrom;
  }

  lemma OnlyReads(c: Config, s: State, step: Step, w: nat, it: Item, ev: Event)
    requires Enabled(c, s, step) && HoldingRow(w, it, ev)(Apply(c, s, step))
    ensures HoldingRow(w, it, ev)(s) || Reading(w, it, ev)(s, step)
  {
    if step.Fetch? && step.w == w {
      FetchReads(s, w, step.read, it, ev);
      hide AfterFetch;
    } else if IsOwnStep(step, w) {
      hide Working, SameTables, ShouldDeactivate, Insert, AfterFetch, AfterSettle, ScoresFrom, Tries;
    } else {
      OthersKeepHand(c, s, step, w);
      hide Apply, Enabled;
    }
  }

  // ---------- why an event is inactive ----------

  predicate IsActive(s: State, e: EventId) {
    e in s.events && s.events[e].status == Active
  }

  lemma OnlyDeactivates(c: Config, s: State, step: Step, e: EventId)
    requires Enabled(c, s, step) && !step.Put? && IsActive(s, e)
    requires var s' := Apply(c, s, step); e in s'.events && !IsActive(s', e)
    ensures step.Deactivate? && step.updated && step.w in s.hands && s.hands[step.w].Deactivating?
    ensures s.hands[step.w].item.event == e
    ensures Apply(c, s, step).events[e] == s.hands[step.w].event.(status := Inactive)
  {
    hide PlanOf, Extended, AfterLook, AfterAsk, AfterPlan, Forgotten, RecentRows, Filter, HasRecentRow;
    hide Working, ShouldDeactivate, Insert, AfterSettle;
    if step.Fetch? {
      FetchShape(s, step.w, step.read);
      hide AfterFetch;
    }
  }

  /** In every run from the empty system: if a step other than a handler's write makes an active event
      inactive, then a worker that holds an item of it writes back the row it has read, but for the status; it
      read that row, executed its action with success, and then decided while the event was one-time, or had
      Count completed rows, or was past its Until. */
  lemma WhyInactive(c: Config, s0: State, steps: seq<Step>, step: Step, e: EventId)
    returns (w: nat, it: Item, ev: Event)
    requires Initial(s0) && Run(c, s0, steps) && Enabled(c, Final(c, s0, steps), step) && !step.Put?
    requires IsActive(Final(c, s0, steps), e)
    requires var s' := Apply(c, Final(c, s0, steps), step); e in s'.events && !IsActive(s', e)
    ensures step == Deactivate(w, true) && it.event == e
    ensures Apply(c, Final(c, s0, steps), step).events[e] == ev.(status := Inactive)
    ensures Happened(c, s0, steps, Reading(w, it, ev)) && Happened(c, s0, steps, Executing(w, it, ev))
    ensures Happened(c, s0, steps, Deciding(w, it, ev))
  {
    var s := Final(c, s0, steps);
    OnlyDeactivates(c, s, step, e);
    w := step.w;
    it, ev := s.hands[w].item, s.hands[w].event;
    assert s.hands[w] == Deactivating(it, ev);
    assert s0.hands == map[];
    hide Run, Final, Apply, Enabled, Happened, Initial, IsActive;
    forall s1, x | Enabled(c, s1, x)
      ensures Holding(w, Deactivating(it, ev))(Apply(c, s1, x)) ==>
                Holding(w, Deactivating(it, ev))(s1) || Deciding(w, it, ev)(s1, x)
      ensures HoldingSuccess(w, it, ev)(Apply(c, s1, x)) ==>
                HoldingSuccess(w, it, ev)(s1) || Executing(w, it, ev)(s1, x)
      ensures HoldingRow(w, it, ev)(Apply(c, s1, x)) ==> HoldingRow(w, it, ev)(s1) || Reading(w, it, ev)(s1, x)
    {
      if Holding(w, Deactivating(it, ev))(Apply(c, s1, x)) {
        OnlyDecisions(c, s1, x, w, it, ev);
      }
      if HoldingSuccess(w, it, ev)(Apply(c, s1, x)) {
        OnlyExecutions(c, s1, x, w, it, ev);
      }
      if HoldingRow(w, it, ev)(Apply(c, s1, x)) {
        OnlyReads(c, s1, x, w, it, ev);
      }
    }
    Began(c, s0, steps, Holding(w, Deactivating(it, ev)), Deciding(w, it, ev));
    Began(c, s0, steps, HoldingSuccess(w, it, ev), Executing(w, it, ev));
    Began(c, s0, steps, HoldingRow(w, it, ev), Reading(w, it, ev));
  }

  /** Recurring, with neither Count nor Until. */
  predicate IsEndless(ev: Event) {
    ev.schedule.Some? && ev.schedule.value.count.None? && !ev.schedule.value.until.Before?
  }

  /** So the dispatcher never makes a recurring event without Count and Until inactive. */
  lemma EndlessIsNotInactivated(c: Config, s0: State, steps: seq<Step>, step: Step, e: EventId)
    requires Initial(s0) && Run(c, s0, steps) && Enabled(c, Final(c, s0, steps), step) && !step.Put?
    requires IsActive(Final(c, s0, steps), e)
    requires var s' := Apply(c, Final(c, s0, steps), step); e in s'.events && IsEndless(s'.events[e])
    ensures IsActive(Apply(c, Final(c, s0, steps), step), e)
  {
    hide Run, Final, Apply, Enabled, Happened, Initial, IsActive;
    if !IsActive(Apply(c, Final(c, s0, steps), step), e) {
      var w, it, ev := WhyInactive(c, s0, steps, step, e);
      var at, x := HappenedOnce(c, s0, steps, Deciding(w, it, ev));
    }
  }

  // ---------- what is always inactivated, and what never ----------

  ghost predicate AllEndless(s: State, e: EventId) {
    && (e in s.events ==> s.events[e].status == Active && IsEndless(s.events[e]))
    && forall w :: w in s.hands && s.hands[w].item.event == e ==>
         && !s.hands[w].Deactivating?
         && (s.hands[w].Fetched? || s.hands[w].Executed? || s.hands[w].Logged? ==> IsEndless(s.hands[w].event))
  }

  /** Every write of e by a handler is of an active endless event. */
  predicate WritesEndless(step: Step, e: EventId) {
    step.Put? && step.e == e ==> step.event.status == Active && IsEndless(step.event)
  }

  /** One worker changes hands, and the row of e is as it was, or gone. */
  lemma HandKeepsEndless(s: State, s': State, w: nat, e: EventId)
    requires AllEndless(s, e) && (e in s'.events ==> e in s.events && s'.events[e] == s.events[e])
    requires forall x :: x != w && x in s'.hands ==> x in s.hands && s'.hands[x] == s.hands[x]
    requires w in s'.hands && s'.hands[w].item.event == e ==>
               && !s'.hands[w].Deactivating?
               && (s'.hands[w].Fetched? || s'.hands[w].Executed? || s'.hands[w].Logged? ==>
                     IsEndless(s'.hands[w].event))
    ensures AllEndless(s', e)
  {
  }

  lemma TurnKeepsEndless(c: Config, s: State, step: Step, e: EventId)
    requires AllEndless(s, e) && Enabled(c, s, step)
    requires step.Pop? || step.Execute? || step.Log? || step.Settle? || step.Crash?
    ensures AllEndless(Apply(c, s, step), e)
  {
    hide Working, SameTables, AfterSettle;
    HandKeepsEndless(s, Apply(c, s, step), step.w, e);
  }

  lemma DecideKeepsEndless(s: State, w: nat, counted: bool, e: EventId)
    requires AllEndless(s, e) && w in s.hands && s.hands[w].Logged?
    ensures AllEndless(AfterDecide(s, w, counted), e)
  {
    hide Working, SameTables, CountCompleted;
    HandKeepsEndless(s, AfterDecide(s, w, counted), w, e);
  }

  lemma DeactivateKeepsEndless(s: State, w: nat, updated: bool, e: EventId)
    requires AllEndless(s, e) && w in s.hands && s.hands[w].Deactivating?
    ensures AllEndless(AfterDeactivate(s, w, updated), e)
  {
    hide Working, SameTables;
    HandKeepsEndless(s, AfterDeactivate(s, w, updated), w, e);
  }

  lemma FetchKeepsEndless(s: State, w: nat, read: Read, e: EventId)
    requires AllEndless(s, e) && w in s.hands && s.hands[w].Popped?
    ensures AllEndless(AfterFetch(s, w, read), e)
  {
    FetchShape(s, w, read);
    hide AfterFetch;
    HandKeepsEndless(s, AfterFetch(s, w, read), w, e);
  }

  lemma AsideKeepsEndless(s: State, s': State, e: EventId)
    requires AllEndless(s, e) && s'.hands == s.hands
    requires e in s'.events ==> (e in s.events && s'.events[e] == s.events[e]) ||
                                (s'.events[e].status == Active && IsEndless(s'.events[e]))
    ensures AllEndless(s', e)
  {
  }

  lemma PutKeepsEndless(c: Config, s: State, other: EventId, event: Event, e: EventId)
    requires AllEndless(s, e) && WritesEndless(Put(other, event), e)
    ensures AllEndless(AfterPut(c, s, other, event), e)
  {
    hide AllEndless, IsEndless, ScoresFrom;
    AsideKeepsEndless(s, AfterPut(c, s, other, event), e);
  }

  lemma LossKeepsEndless(c: Config, s: State, step: Step, e: EventId)
    requires AllEndless(s, e) && Enabled(c, s, step) && (step.Delete? || step.Archive?)
    ensures AllEndless(Apply(c, s, step), e)
  {
    hide AllEndless, IsEndless, RecentRows, Filter, HasRecentRow;
    AsideKeepsEndless(s, Apply(c, s, step), e);
  }

  lemma RedisKeepsEndless(c: Config, s: State, step: Step, e: EventId)
    requires AllEndless(s, e) && Enabled(c, s, step)
    requires step.Advance? || step.Begin? || step.BeginOnce? || step.Look? || step.Ask? || step.Plan? || step.Finish? ||
             step.Move? || step.Poll? || step.Unplan?
    ensures AllEndless(Apply(c, s, step), e)
  {
    hide AllEndless, IsEndless, PlanOf, Extended, AfterLook, AfterAsk, AfterPlan, Forgotten, ScoresFrom;
    AsideKeepsEndless(s, Apply(c, s, step), e);
  }

  lemma StepKeepsEndless(c: Config, s: State, step: Step, e: EventId)
    requires AllEndless(s, e) && Enabled(c, s, step) && WritesEndless(step, e)
    ensures AllEndless(Apply(c, s, step), e)
  {
    hide AllEndless, WritesEndless, AfterFetch, AfterDecide, AfterDeactivate, AfterPut;
    if step.Fetch? {
      FetchKeepsEndless(s, step.w, step.read, e);
    } else if step.Decide? {
      DecideKeepsEndless(s, step.w, step.counted, e);
    } else if step.Deactivate? {
      DeactivateKeepsEndless(s, step.w, step.updated, e);
    } else if step.Put? {
      PutKeepsEndless(c, s, step.e, step.event, e);
    } else if step.Pop? || step.Execute? || step.Log? || step.Settle? || step.Crash? {
      hide Apply, Enabled;
      TurnKeepsEndless(c, s, step, e);
    } else {
      hide Apply, Enabled;
      if step.Delete? || step.Archive? {
        LossKeepsEndless(c, s, step, e);
      } else {
        RedisKeepsEndless(c, s, step, e);
      }
    }
  }

  lemma {:induction false} RunKeepsEndless(c: Config, s: State, steps: seq<Step>, e: EventId)
    requires AllEndless(s, e) && Run(c, s, steps) && forall step :: step in steps ==> WritesEndless(step, e)
    ensures AllEndless(Final(c, s, steps), e)
    decreases |steps|
  {
    hide Enabled, Apply, AllEndless, WritesEndless;
    if steps != [] {
      StepKeepsEndless(c, s, steps[0], e);
      RunKeepsEndless(c, Apply(c, s, steps[0]), steps[1..], e);
    }
  }

  /** In every run from the empty system in which handlers write only active recurring events without Count and
      Until under e, it is active for as long as it exists, however often it is dispatched or fails. */
  lemma EndlessStaysActive(c: Config, s0: State, steps: seq<Step>, e: EventId)
    requires Initial(s0) && Run(c, s0, steps) && forall step :: step in steps ==> WritesEndless(step, e)
    ensures var s := Final(c, s0, steps); e in s.events ==> s.events[e].status == Active
  {
    RunKeepsEndless(c, s0, steps, e);
    hide Run, Final;
  }

  /** The event has no schedule, or its Until has passed. */
  predicate IsOver(ev: Event, now: Instant) {
    ev.schedule == None || (ev.schedule.value.until.Before? && now > ev.schedule.value.until.bound)
  }

  /** A worker with a success for an active event that is over is on its way to write it inactive, or the event
      is not active. */
  predicate IsEnding(s: State, w: nat, it: Item, ev: Event) {
    || (w in s.hands && s.hands[w] == Logged(it, ev, true) && ev.status == Active && IsOver(ev, s.clock))
    || (w in s.hands && s.hands[w] == Deactivating(it, ev))
    || !IsActive(s, it.event)
  }

  /** The worker is not lost, its update succeeds, and nobody writes the event. */
  predicate LeavesBe(step: Step, w: nat, e: EventId) {
    && !(step.Crash? && step.w == w)
    && !(step.Deactivate? && step.w == w && !step.updated)
    && !(step.Put? && step.e == e)
  }

  lemma StepKeepsEnding(c: Config, s: State, step: Step, w: nat, it: Item, ev: Event)
    requires IsEnding(s, w, it, ev) && Enabled(c, s, step) && LeavesBe(step, w, it.event)
    ensures IsEnding(Apply(c, s, step), w, it, ev)
  {
    if !IsActive(s, it.event) {
      StaysInactive(c, s, step, it.event);
    } else if IsOwnStep(step, w) {
      hide Working, SameTables, CountCompleted;
    } else {
      OthersKeepHand(c, s, step, w);
      ClockGoesOn(c, s, step);
      hide Apply, Enabled, IsActive;
    }
  }

  lemma ClockGoesOn(c: Config, s: State, step: Step)
    requires Enabled(c, s, step)
    ensures Apply(c, s, step).clock >= s.clock
  {
    hide PlanOf, Extended, AfterLook, AfterAsk, RecentRows, Filter, HasRecentRow, ScoresFrom;
    hide AfterFetch, AfterLog, AfterDecide, AfterDeactivate, AfterSettle, AfterPut, AfterPlan, Forgotten;
  }

  lemma PutOfOther(c: Config, s: State, other: EventId, event: Event, e: EventId)
    requires other != e
    ensures IsActive(AfterPut(c, s, other, event), e) <==> IsActive(s, e)
  {
    hide Planning;
  }

  lemma StaysInactive(c: Config, s: State, step: Step, e: EventId)
    requires Enabled(c, s, step) && !IsActive(s, e) && !(step.Put? && step.e == e)
    ensures !IsActive(Apply(c, s, step), e)
  {
    if step.Put? {
      PutOfOther(c, s, step.e, step.event, e);
    } else {
      Inactivation.NeverReactivated(c, s, step, e);
      hide Apply, Enabled;
    }
  }

  lemma {:induction false} RunKeepsEnding(c: Config, s: State, steps: seq<Step>, w: nat, it: Item, ev: Event)
    requires IsEnding(s, w, it, ev)
    requires Run(c, s, steps) && forall step :: step in steps ==> LeavesBe(step, w, it.event)
    ensures IsEnding(Final(c, s, steps), w, it, ev)
    decreases |steps|
  {
    hide Enabled, Apply, IsEnding, LeavesBe;
    if steps != [] {
      StepKeepsEnding(c, s, steps[0], w, it, ev);
      RunKeepsEnding(c, Apply(c, s, steps[0]), steps[1..], w, it, ev);
    }
  }

  /** A logged success of an active event that has no schedule or is past its Until ends in Inactive: once the
      worker has gone on, in every run in which it is not lost, its update succeeds and nobody else writes the
      event, whatever the other workers do. */
  lemma SuccessWhenOverInactivates(c: Config, s: State, steps: seq<Step>, w: nat, it: Item, ev: Event)
    requires w in s.hands && s.hands[w] == Logged(it, ev, true) && ev.status == Active
    requires ev.schedule == None || (ev.schedule.value.until.Before? && s.clock > ev.schedule.value.until.bound)
    requires Run(c, s, steps) && forall step :: step in steps ==> LeavesBe(step, w, it.event)
    ensures var s' := Final(c, s, steps);
            w !in s'.hands || s'.hands[w] !in {Logged(it, ev, true), Deactivating(it, ev)} ==>
              it.event in s'.events ==> s'.events[it.event].status != Active
  {
    RunKeepsEnding(c, s, steps, w, it, ev);
    hide Run, Final, LeavesBe;
  }

  // ---------- fates ----------

  /** The worker's loop ends with a failure that no attempt follows. */
  predicate IsLastFailure(c: Config, s: State, step: Step, id: OccurrenceId) {
    && step.Settle? && step.w in s.hands && s.hands[step.w].Returned? && s.hands[step.w].item.id == id
    && !s.hands[step.w].ok && s.hands[step.w].item.attempt + 1 >= c.maxRetries
  }

  /** The worker's loop ends with a success. */
  predicate IsSuccess(s: State, step: Step, id: OccurrenceId) {
    && step.Settle? && step.w in s.hands && s.hands[step.w].Returned? && s.hands[step.w].item.id == id
    && s.hands[step.w].ok
  }

  predicate HasFate(s: State, id: OccurrenceId, f: Fate) {
    id in s.fate && s.fate[id] == f
  }

  lemma FetchFate(s: State, w: nat, read: Read, id: OccurrenceId, f: Fate)
    requires w in s.hands && s.hands[w].Popped? && f in {Dropped, Completed}
    ensures HasFate(AfterFetch(s, w, read), id, f) ==> HasFate(s, id, f)
  {
    FetchRedis(s, w, read);
    hide AfterFetch;
  }

  lemma PlanFate(s: State, j: nat, id: OccurrenceId, planned: Planned, o: OccurrenceId, f: Fate)
    requires HasHead(s, j) && f in {Dropped, Completed}
    ensures HasFate(AfterPlan(s, j, id, planned), o, f) ==> HasFate(s, o, f)
  {
    hide Planning, SameTables, KeyOf, EnteredIn;
  }

  lemma TurnKeepsFates(c: Config, s: State, step: Step)
    requires Enabled(c, s, step) && (step.Pop? || step.Execute? || step.Log? || step.Decide? || step.Deactivate?)
    ensures Apply(c, s, step).fate == s.fate
  {
    hide Working, SameTables, ScoresFrom, ShouldDeactivate, Tries;
  }

  lemma PutKeepsFates(c: Config, s: State, e: EventId, event: Event)
    ensures AfterPut(c, s, e, event).fate == s.fate
  {
    hide Planning;
  }

  lemma TablesKeepFates(c: Config, s: State, step: Step)
    requires Enabled(c, s, step) && (step.Put? || step.Delete? || step.Archive?)
    ensures Apply(c, s, step).fate == s.fate
  {
    hide RecentRows, Filter, KeptEvents, Planning, AfterPut;
    if step.Put? {
      PutKeepsFates(c, s, step.e, step.event);
    }
  }

  lemma OthersKeepFates(c: Config, s: State, step: Step)
    requires Enabled(c, s, step)
    requires step.Advance? || step.Begin? || step.BeginOnce? || step.Look? || step.Ask? || step.Finish? || step.Move? ||
             step.Poll?
    ensures Apply(c, s, step).fate == s.fate
  {
    hide PlanOf, Extended, AfterLook, AfterAsk, Moved, Polled;
  }

  /** How a worker's loop ends: completed, out of attempts, requeued, or lost with a failing ZADD. */
  lemma SettledFate(c: Config, s: State, w: nat, requeued: bool)
    requires w in s.hands && s.hands[w].Returned?
    ensures var s', h := AfterSettle(c, s, w, requeued), s.hands[w];
            s'.fate == if h.ok then s.fate[h.item.id := Completed]
                       else if h.item.attempt + 1 >= c.maxRetries then s.fate[h.item.id := Dropped]
                       else if requeued then s.fate else s.fate[h.item.id := Lost]
  {
    hide Working, SameTables, ScoresFrom, Unix;
    var h := s.hands[w];
    var s1 := Settled(c, s, h.item, h.ok, requeued);
    assert AfterSettle(c, s, w, requeued) == s1.(hands := s.hands - {w});
    hide AfterSettle;
    if h.ok {
      assert s1 == ToldFate(s, h.item.id, Completed);
    } else if h.item.attempt + 1 >= c.maxRetries {
      assert s1 == ToldFate(s, h.item.id, Dropped);
    } else if requeued {
      assert s1 == Requeued(c, s, h.item);
    } else {
      assert s1 == ToldFate(s, h.item.id, Lost);
    }
    hide Settled;
  }

  lemma SettleFate(c: Config, s: State, w: nat, requeued: bool, id: OccurrenceId)
    requires w in s.hands && s.hands[w].Returned?
    ensures var s' := AfterSettle(c, s, w, requeued);
            && (HasFate(s', id, Dropped) ==> HasFate(s, id, Dropped) || IsLastFailure(c, s, Settle(w, requeued), id))
            && (HasFate(s', id, Completed) ==> HasFate(s, id, Completed) || IsSuccess(s, Settle(w, requeued), id))
  {
    SettledFate(c, s, w, requeued);
    hide AfterSettle;
  }

  lemma UnplanFate(s: State, k: Key, id: OccurrenceId, f: Fate)
    requires k in s.redis.data && f in {Dropped, Completed}
    ensures HasFate(Forgotten(s, k), id, f) ==> HasFate(s, id, f)
  {
    hide Planning, SameTables;
  }

  lemma NewFate(c: Config, s: State, step: Step, id: OccurrenceId)
    requires Enabled(c, s, step)
    ensures HasFate(Apply(c, s, step), id, Dropped) ==> HasFate(s, id, Dropped) || IsLastFailure(c, s, step, id)
    ensures HasFate(Apply(c, s, step), id, Completed) ==> HasFate(s, id, Completed) || IsSuccess(s, step, id)
  {
    hide AfterFetch, AfterPlan, AfterSettle, Forgotten, IsLastFailure, IsSuccess, Planning, SameTables, Working;
    if step.Fetch? {
      FetchFate(s, step.w, step.read, id, Dropped);
      FetchFate(s, step.w, step.read, id, Completed);
    } else if step.Plan? {
      PlanFate(s, step.j, step.id, step.planned, id, Dropped);
      PlanFate(s, step.j, step.id, step.planned, id, Completed);
    } else if step.Settle? {
      SettleFate(c, s, step.w, step.requeued, id);
    } else if step.Unplan? {
      UnplanFate(s, step.k, id, Dropped);
      UnplanFate(s, step.k, id, Completed);
    } else if step.Crash? {
    } else {
      hide Apply, Enabled;
      if step.Pop? || step.Execute? || step.Log? || step.Decide? || step.Deactivate? {
        TurnKeepsFates(c, s, step);
      } else if step.Put? || step.Delete? || step.Archive? {
        TablesKeepFates(c, s, step);
      } else {
        OthersKeepFates(c, s, step);
      }
    }
  }

  /** Dropped occurrences have used every attempt they had. */
  ghost predicate AllSpent(c: Config, s: State) {
    forall id :: HasFate(s, id, Dropped) ==> Tries(s, id) == Max(1, c.maxRetries)
  }

  lemma LastFailureIsSpent(c: Config, s: State, step: Step, id: OccurrenceId)
    requires AllOk(c, s) && Enabled(c, s, step) && IsLastFailure(c, s, step, id)
    ensures Tries(s, id) == Max(1, c.maxRetries)
  {
    assert Ok(c, s, InHand(step.w));
    hide AllOk, IsDue;
  }

  lemma PopKeepsSpent(c: Config, s: State, w: nat)
    requires Conserved(s) && AllSpent(c, s) && Enabled(c, s, Pop(w))
    ensures AllSpent(c, Apply(c, s, Pop(w)))
  {
    var p := InQueue(|s.redis.queue| - 1);
    assert At(s, ItemAt(s, p).id, p);
    hide Conserved;
    var s' := Apply(c, s, Pop(w));
    assert s'.fate == s.fate && forall id :: id != ItemAt(s, p).id ==> Tries(s', id) == Tries(s, id);
  }

  lemma StepKeepsSpent(c: Config, s: State, step: Step)
    requires Inv(c, s) && AllSpent(c, s) && Enabled(c, s, step)
    ensures AllSpent(c, Apply(c, s, step))
  {
    if step.Pop? {
      PopKeepsSpent(c, s, step.w);
    } else {
      var s' := Apply(c, s, step);
      OnlyPopTries(c, s, step);
      hide Conserved, AllOk, Bounded, Scores, History, Apply, Enabled;
      forall id | HasFate(s', id, Dropped)
        ensures Tries(s', id) == Max(1, c.maxRetries)
      {
        NewFate(c, s, step, id);
        if IsLastFailure(c, s, step, id) {
          LastFailureIsSpent(c, s, step, id);
        }
      }
    }
  }

  lemma {:induction false} RunKeepsSpent(c: Config, s: State, steps: seq<Step>)
    requires Inv(c, s) && AllSpent(c, s) && Run(c, s, steps)
    ensures AllSpent(c, Final(c, s, steps))
    decreases |steps|
  {
    hide Enabled, Apply, Inv, AllSpent;
    if steps != [] {
      StepKeepsInv(c, s, steps[0]);
      StepKeepsSpent(c, s, steps[0]);
      RunKeepsSpent(c, Apply(c, s, steps[0]), steps[1..]);
    }
  }

  /** In every run an occurrence is dropped only after exactly max(1, maxRetries) dispatches: no attempt is
      taken from it. */
  lemma DroppedAfterAllAttempts(c: Config, s0: State, steps: seq<Step>, id: OccurrenceId)
    requires Initial(s0) && Run(c, s0, steps)
    ensures var s := Final(c, s0, steps);
            id in s.fate && s.fate[id] == Dropped ==> Tries(s, id) == Max(1, c.maxRetries)
  {
    InitialInv(c, s0);
    hide Inv;
    RunKeepsSpent(c, s0, steps);
  }

  /** The occurrence is completed, or a worker holds it with a success. */
  ghost predicate HasSucceeded(s: State, id: OccurrenceId) {
    HasFate(s, id, Completed) || exists w :: HoldsSuccessOf(s, w, id)
  }

  predicate HoldsSuccessOf(s: State, w: nat, id: OccurrenceId) {
    w in s.hands && s.hands[w].item.id == id &&
    match s.hands[w]
    case Executed(_, _, ok) => ok
    case Logged(_, _, ok) => ok
    case Deactivating(_, _) => true
    case Returned(_, ok) => ok
    case _ => false
  }

  predicate ExecutesOf(s: State, step: Step, id: OccurrenceId) {
    step.Execute? && step.ok && step.w in s.hands && s.hands[step.w].Fetched? && s.hands[step.w].item.id == id
  }

  ghost function Succeeding(id: OccurrenceId): State -> bool {
    (s: State) => HasSucceeded(s, id)
  }

  function ExecutionOf(id: OccurrenceId): (State, Step) -> bool {
    (s: State, x: Step) => ExecutesOf(s, x, id)
  }

  lemma SuccessIsOld(c: Config, s: State, step: Step, w: nat, id: OccurrenceId)
    requires Enabled(c, s, step) && HoldsSuccessOf(Apply(c, s, step), w, id)
    ensures HoldsSuccessOf(s, w, id) || ExecutesOf(s, step, id)
  {
    if IsOwnStep(step, w) {
      hide Working, SameTables, ShouldDeactivate, Insert;
      if step.Fetch? {
        FetchShape(s, w, step.read);
        hide AfterFetch;
      }
    } else {
      OthersKeepHand(c, s, step, w);
      hide Apply, Enabled;
    }
  }

  lemma OnlyExecutionsSucceed(c: Config, s: State, step: Step, id: OccurrenceId)
    requires Enabled(c, s, step) && HasSucceeded(Apply(c, s, step), id)
    ensures HasSucceeded(s, id) || ExecutesOf(s, step, id)
  {
    hide Apply, Enabled, HasFate, HoldsSuccessOf;
    var s' := Apply(c, s, step);
    if w :| HoldsSuccessOf(s', w, id) {
      SuccessIsOld(c, s, step, w, id);
    } else {
      NewFate(c, s, step, id);
      if IsSuccess(s, step, id) {
        SettledSuccess(s, step, id);
      }
    }
  }

  lemma SettledSuccess(s: State, step: Step, id: OccurrenceId)
    requires IsSuccess(s, step, id)
    ensures HoldsSuccessOf(s, step.w, id)
  {
  }

  /** In every run an occurrence is completed only if its action was executed with success. */
  lemma CompletedWasExecuted(c: Config, s0: State, steps: seq<Step>, id: OccurrenceId)
    requires Initial(s0) && Run(c, s0, steps)
    requires var s := Final(c, s0, steps); id in s.fate && s.fate[id] == Completed
    ensures Happened(c, s0, steps, ExecutionOf(id))
  {
    assert Succeeding(id)(Final(c, s0, steps)) && !Succeeding(id)(s0);
    hide Run, Final, Apply, Enabled, Happened, Initial, HasSucceeded, ExecutesOf;
    forall s1, x | Enabled(c, s1, x) && Succeeding(id)(Apply(c, s1, x))
      ensures Succeeding(id)(s1) || ExecutionOf(id)(s1, x)
    {
      OnlyExecutionsSucceed(c, s1, x, id);
    }
    Began(c, s0, steps, Succeeding(id), ExecutionOf(id));
  }

  // ---------- logged attempts ----------

  lemma RowStays(c: Config, s: State, step: Step, r: Row)
    requires Enabled(c, s, step) && r in s.rows && step != Delete(r.event)
    ensures r in Apply(c, s, step).rows || r.at < s.clock - c.retention
  {
    hide PlanOf, Extended, AfterLook, AfterAsk, AfterPlan, AfterPut, Forgotten, AfterSettle, KeptEvents;
    hide AfterDecide, AfterDeactivate, Cleaned;
    if step.Fetch? {
      FetchShape(s, step.w, step.read);
      hide AfterFetch;
    }
  }

  lemma {:induction false} RowIsRemembered(c: Config, s: State, steps: seq<Step>, r: Row)
    requires r in s.rows || r.at < s.clock - c.retention
    requires Run(c, s, steps) && Delete(r.event) !in steps
    ensures var s' := Final(c, s, steps); r in s'.rows || r.at < s'.clock - c.retention
    decreases |steps|
  {
    hide Enabled, Apply;
    if steps != [] {
      ClockGoesOn(c, s, steps[0]);
      if r in s.rows {
        RowStays(c, s, steps[0], r);
      }
      RowIsRemembered(c, Apply(c, s, steps[0]), steps[1..], r);
    }
  }

  lemma LogAppends(c: Config, s: State, w: nat, it: Item, ev: Event, ok: bool)
    requires w in s.hands && s.hands[w] == Executed(it, ev, ok) && it.event in s.events
    ensures Enabled(c, s, Log(w, true))
    ensures Apply(c, s, Log(w, true)).rows == s.rows + [Row(it.id, it.event, it.at, ok, it.attempt + 1)]
  {
    hide Working;
  }

  /** An attempt whose INSERT succeeds is in the table, failed or not, with its attempt number, in every later
      state: until the event is deleted or the occurrence is older than the retention period. */
  lemma AttemptIsRemembered(c: Config, s: State, w: nat, it: Item, ev: Event, ok: bool, steps: seq<Step>)
    requires w in s.hands && s.hands[w] == Executed(it, ev, ok) && it.event in s.events
    requires Run(c, s, [Log(w, true)] + steps) && Delete(it.event) !in steps
    ensures var s' := Final(c, s, [Log(w, true)] + steps);
            Row(it.id, it.event, it.at, ok, it.attempt + 1) in s'.rows || it.at < s'.clock - c.retention
  {
    LogAppends(c, s, w, it, ev, ok);
    hide Apply, Enabled;
    assert ([Log(w, true)] + steps)[1..] == steps;
    RowIsRemembered(c, Apply(c, s, Log(w, true)), steps, Row(it.id, it.event, it.at, ok, it.attempt + 1));
  }
}
