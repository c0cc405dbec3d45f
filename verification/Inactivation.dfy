/** Auto-inactivation with any number of workers interleaved at the database calls of
    DispatchAction. */
module Inactivation {
  import opened Times
  import opened Recurrence
  import opened Tables
  import opened Redis
  import opened Pipeline

  predicate CarriesEvent(h: Hand) {
    h.Fetched? || h.Executed? || h.Logged? || h.Deactivating?
  }

  /** A worker that has logged a success for e and has not yet written the event. */
  predicate IsPending(s: State, w: nat, e: EventId) {
    w in s.hands && s.hands[w].item.event == e &&
    ((s.hands[w].Logged? && s.hands[w].ok) || s.hands[w].Deactivating?)
  }

  /** The completed rows suffice: one for a one-time event, Count for a counted one. */
  predicate IsUsedUp(s: State, e: EventId)
    requires e in s.events
  {
    match s.events[e].schedule
    case None => CountCompleted(s.rows, e) >= 1
    case Some(sch) => sch.count.Some? && CountCompleted(s.rows, e) >= sch.count.value
  }

  /** Workers hold the event's schedule as it is, and hold it active if it is. */
  ghost predicate SnapshotsFit(s: State, e: EventId)
    requires e in s.events
  {
    forall w :: w in s.hands && s.hands[w].item.event == e && CarriesEvent(s.hands[w]) ==>
      && s.hands[w].event.schedule == s.events[e].schedule
      && (s.events[e].status.Active? ==> s.hands[w].event.status.Active?)
  }

  ghost predicate SomePending(s: State, e: EventId) {
    exists w :: IsPending(s, w, e)
  }

  ghost predicate Guarded(s: State, e: EventId) {
    && e in s.events
    && SnapshotsFit(s, e)
    && (s.events[e].status.Active? && IsUsedUp(s, e) ==> SomePending(s, e))
  }

  /** Calls succeed, and nobody edits, deletes or archives e or kills its workers. */
  predicate Undisturbed(s: State, step: Step, e: EventId) {
    match step
    case Put(other, _) => other != e
    case Delete(other) => other != e
    case Archive => false
    case Decide(w, counted) => counted
    case Deactivate(w, updated) => updated
    case Crash(w) => w in s.hands ==> s.hands[w].item.event != e
    case _ => true
  }

  predicate UndisturbedRun(c: Config, s: State, steps: seq<Step>, e: EventId)
    decreases |steps|
  {
    steps == [] ||
    (Enabled(c, s, steps[0]) && Undisturbed(s, steps[0], e) &&
     UndisturbedRun(c, Apply(c, s, steps[0]), steps[1..], e))
  }

  // ---------- frames ----------

  /** Steps that change neither workers nor tables. */
  lemma IdleKeepsGuard(s: State, s': State, e: EventId)
    requires Guarded(s, e) && s'.hands == s.hands && s'.rows == s.rows
    requires e in s'.events && s'.events[e] == s.events[e]
    ensures Guarded(s', e)
  {
    assert forall w :: IsPending(s', w, e) <==> IsPending(s, w, e);
  }

  /** One worker changes hands; it was not pending, or still is, and carries a fitting snapshot. */
  lemma WorkerKeepsGuard(s: State, s': State, w: nat, e: EventId)
    requires Guarded(s, e)
    requires e in s'.events && s'.events[e] == s.events[e]
    requires forall x :: x != w ==> (x in s'.hands <==> x in s.hands) && (x in s.hands ==> s'.hands[x] == s.hands[x])
    requires w in s'.hands && s'.hands[w].item.event == e && CarriesEvent(s'.hands[w]) ==>
               s'.hands[w].event.schedule == s.events[e].schedule &&
               (s.events[e].status.Active? ==> s'.hands[w].event.status.Active?)
    requires s.events[e].status.Active? && IsUsedUp(s, e) && IsPending(s, w, e) ==> IsPending(s', w, e)
    requires CountCompleted(s'.rows, e) > CountCompleted(s.rows, e) ==> IsPending(s', w, e)
    ensures Guarded(s', e)
  {
    hide CountCompleted;
    if SomePending(s, e) {
      var x :| IsPending(s, x, e);
      assert x != w ==> IsPending(s', x, e);
    }
  }

  lemma CountAfterInsert(s: State, r: Row, e: EventId)
    ensures CountCompleted(Insert(s, r).rows, e) <=
            CountCompleted(s.rows, e) + (if r.event == e && r.completed then 1 else 0)
    ensures CountCompleted(Insert(s, r).rows, e) >= CountCompleted(s.rows, e)
  {
    CountCompletedAppend(s.rows, r, e);
  }

  lemma CountAfterDelete(rows: seq<Row>, other: EventId, e: EventId)
    requires other != e
    ensures CountCompleted(Filter(rows, (r: Row) => r.event != other), e) == CountCompleted(rows, e)
  {
    FilterTwice(rows, (r: Row) => r.event != other, r => IsCompletedOf(e, r));
  }

  // ---------- steps ----------

  lemma FetchKeepsGuard(s: State, w: nat, read: Read, e: EventId)
    requires Guarded(s, e) && w in s.hands && s.hands[w].Popped?
    ensures Guarded(AfterFetch(s, w, read), e)
  {
    hide CountCompleted, AfterFetch, Insert;
    var it := s.hands[w].item;
    var r := Row(it.id, it.event, it.at, false, 0);
    CountAfterInsert(s, r, e);
    FetchShape(s, w, read);
    WorkerKeepsGuard(s, AfterFetch(s, w, read), w, e);
  }

  lemma LogKeepsGuard(s: State, w: nat, stored: bool, e: EventId)
    requires Guarded(s, e) && w in s.hands && s.hands[w].Executed?
    ensures Guarded(AfterLog(s, w, stored), e)
  {
    var Executed(it, ev, ok) := s.hands[w];
    CountAfterInsert(s, Row(it.id, it.event, it.at, ok, it.attempt + 1), e);
    hide CountCompleted;
    WorkerKeepsGuard(s, AfterLog(s, w, stored), w, e);
  }

  lemma DecideKeepsGuard(s: State, w: nat, e: EventId)
    requires Guarded(s, e) && w in s.hands && s.hands[w].Logged?
    ensures Guarded(AfterDecide(s, w, true), e)
  {
    hide CountCompleted;
    WorkerKeepsGuard(s, AfterDecide(s, w, true), w, e);
  }

  lemma DeactivateKeepsGuard(s: State, w: nat, e: EventId)
    requires Guarded(s, e) && w in s.hands && s.hands[w].Deactivating?
    ensures Guarded(AfterDeactivate(s, w, true), e)
  {
    hide CountCompleted;
    var s' := AfterDeactivate(s, w, true);
    if s.hands[w].item.event != e {
      WorkerKeepsGuard(s, s', w, e);
    }
  }

  lemma DeleteKeepsGuard(c: Config, s: State, other: EventId, e: EventId)
    requires Guarded(s, e) && Enabled(c, s, Delete(other)) && other != e
    ensures Guarded(Apply(c, s, Delete(other)), e)
  {
    var s' := Apply(c, s, Delete(other));
    CountAfterDelete(s.rows, other, e);
    hide CountCompleted, Filter;
    assert forall w :: IsPending(s', w, e) <==> IsPending(s, w, e);
  }

  lemma StepKeepsGuard(c: Config, s: State, step: Step, e: EventId)
    requires Guarded(s, e) && Enabled(c, s, step) && Undisturbed(s, step, e)
    ensures Guarded(Apply(c, s, step), e)
  {
    hide Guarded, PlanOf, Extended, AfterLook, AfterAsk, AfterPlan, Forgotten;
    var s' := Apply(c, s, step);
    match step
    case Fetch(w, read) => FetchKeepsGuard(s, w, read, e);
    case Log(w, stored) => LogKeepsGuard(s, w, stored, e);
    case Decide(w, counted) => DecideKeepsGuard(s, w, e);
    case Deactivate(w, updated) => DeactivateKeepsGuard(s, w, e);
    case Delete(other) => DeleteKeepsGuard(c, s, other, e);
    case _ => PassiveKeepsGuard(c, s, step, e);
  }

  lemma PassiveKeepsGuard(c: Config, s: State, step: Step, e: EventId)
    requires Guarded(s, e) && Enabled(c, s, step) && Undisturbed(s, step, e)
    requires !step.Fetch? && !step.Log? && !step.Decide? && !step.Deactivate? && !step.Delete?
    ensures Guarded(Apply(c, s, step), e)
  {
    hide PlanOf, Extended, AfterLook, AfterAsk, AfterPlan, AfterSettle, Forgotten, CountCompleted, IsUsedUp, Scheduled;
    if step.Pop? || step.Execute? || step.Settle? || step.Crash? {
      TurnKeepsGuard(c, s, step, e);
    } else {
      hide Guarded;
      IdleKeepsGuard(s, Apply(c, s, step), e);
    }
  }

  lemma TurnKeepsGuard(c: Config, s: State, step: Step, e: EventId)
    requires Guarded(s, e) && Enabled(c, s, step) && Undisturbed(s, step, e)
    requires step.Pop? || step.Execute? || step.Settle? || step.Crash?
    ensures Guarded(Apply(c, s, step), e)
  {
    hide AfterSettle, CountCompleted, IsUsedUp, Scheduled;
    WorkerKeepsGuard(s, Apply(c, s, step), step.w, e);
  }

  lemma {:induction false} RunKeepsGuard(c: Config, s: State, steps: seq<Step>, e: EventId)
    requires Guarded(s, e) && UndisturbedRun(c, s, steps, e)
    ensures Run(c, s, steps) && Guarded(Final(c, s, steps), e)
    decreases |steps|
  {
    hide Apply, Enabled, Undisturbed, Guarded;
    if steps != [] {
      StepKeepsGuard(c, s, steps[0], e);
      RunKeepsGuard(c, Apply(c, s, steps[0]), steps[1..], e);
    }
  }

  /** In every undisturbed run from a state in which no worker is on e and e is not used up, any
      number of workers interleaved: whenever no worker is between logging a success for e and
      writing the event, e is inactive or its completed rows do not suffice yet. */
  lemma InactivatedInTime(c: Config, s: State, steps: seq<Step>, e: EventId)
    requires e in s.events && !IsUsedUp(s, e) && forall w :: w in s.hands ==> s.hands[w].item.event != e
    requires UndisturbedRun(c, s, steps, e)
    ensures Run(c, s, steps)
    ensures var s' := Final(c, s, steps);
            && e in s'.events
            && (s'.events[e].status.Active? && !SomePending(s', e) ==> !IsUsedUp(s', e))
  {
    assert Guarded(s, e);
    RunKeepsGuard(c, s, steps, e);
  }

  /** Whatever else happens, only a write of the event row can make it active. */
  lemma NeverReactivated(c: Config, s: State, step: Step, e: EventId)
    requires Enabled(c, s, step) && !step.Put?
    ensures var s' := Apply(c, s, step);
            e in s'.events ==> e in s.events && (s'.events[e].status.Active? ==> s.events[e].status.Active?)
  {
    hide PlanOf, Extended, AfterLook, AfterAsk, AfterPlan, AfterSettle, Forgotten, RecentRows, Filter, HasRecentRow;
    match step
    case Fetch(w, read) =>
      FetchShape(s, w, read);
    case _ =>
  }
}
