/** At most once per instant: with expansions that are atomic for their event, and gracePeriod at most
    the retention, a recurring event's instant reaches the dispatch queue once, archiving included. */
module AtMostOnce {
  import opened Times
  import opened Recurrence
  import opened Tables
  import opened Redis
  import opened Pipeline
  import opened Conservation
  import opened Dispatching
  import opened Repeats

  /** A logged instant still has its row, unless the row may have been archived. */
  ghost predicate Remembered(c: Config, s: State, e: EventId) {
    && s.events.Keys <= s.created
    && (forall t :: (e, t) in s.logged ==> e in s.created)
    && (e in s.events ==>
          forall t :: (e, t) in s.logged ==> ExistsAtTime(s.rows, e, t) || t < s.clock - c.retention)
  }

  predicate NoJobOf(s: State, e: EventId) {
    forall j :: j in s.jobs ==> s.jobs[j].event != e
  }

  /** The discipline: while an expansion of e runs, the clock stands still, the mover leaves e's entries
      alone, and e is not deleted; everything else interleaves. When one begins, every instant of e inside
      the grace period that was handed over has logged a row; older ones cannot be planned again. e is not
      expanded as a one-time event. */
  predicate IsAtomic(c: Config, s: State, step: Step, e: EventId) {
    match step
    case Advance(to) => to == s.clock || NoJobOf(s, e)
    case Move(k) => k in s.redis.data && s.redis.data[k].event == e ==> NoJobOf(s, e)
    case Delete(other) => other == e ==> NoJobOf(s, e)
    case Begin(_, other) =>
      other == e ==> forall m :: m in s.moved && m.0 == e && m.1 > s.clock - c.gracePeriod ==> m in s.logged
    case BeginOnce(_, other) => other != e
    case _ => true
  }

  predicate AtomicRun(c: Config, s: State, steps: seq<Step>, e: EventId)
    decreases |steps|
  {
    steps == [] ||
    (Enabled(c, s, steps[0]) && IsAtomic(c, s, steps[0], e) && AtomicRun(c, Apply(c, s, steps[0]), steps[1..], e))
  }

  // ---------- rows that ExistsAtTime finds ----------

  lemma InsertRemembers(c: Config, s: State, r: Row, e: EventId)
    requires Remembered(c, s, e)
    ensures Remembered(c, Insert(s, r), e)
  {
  }

  lemma ArchiveRemembers(c: Config, s: State, e: EventId)
    requires Remembered(c, s, e)
    ensures Remembered(c, Apply(c, s, Archive), e)
  {
  }

  lemma DeleteRemembers(c: Config, s: State, e: EventId, gone: EventId)
    requires Remembered(c, s, e) && gone in s.events
    ensures Remembered(c, Apply(c, s, Delete(gone)), e)
  {
  }

  /** Steps that change neither rows, log, events nor the set of created events. */
  lemma SameTablesRemember(c: Config, s: State, s': State, e: EventId)
    requires Remembered(c, s, e) && s.clock <= s'.clock
    requires s'.rows == s.rows && s'.logged == s.logged && s'.created == s.created
    requires s'.events.Keys <= s.events.Keys
    ensures Remembered(c, s', e)
  {
  }

  lemma FetchRemembers(c: Config, s: State, w: nat, read: Read, e: EventId)
    requires Remembered(c, s, e) && w in s.hands && s.hands[w].Popped?
    ensures Remembered(c, AfterFetch(s, w, read), e)
  {
    hide Remembered, AfterFetch;
    var it := s.hands[w].item;
    var r := Row(it.id, it.event, it.at, false, 0);
    InsertRemembers(c, s, r, e);
    FetchShape(s, w, read);
    var s' := AfterFetch(s, w, read);
    if s'.rows == s.rows && s'.logged == s.logged {
      SameTablesRemember(c, s, s', e);
    } else {
      SameTablesRemember(c, Insert(s, r), s', e);
    }
  }

  lemma LogRemembers(c: Config, s: State, w: nat, stored: bool, e: EventId)
    requires Remembered(c, s, e) && w in s.hands && s.hands[w].Executed?
    ensures Remembered(c, AfterLog(s, w, stored), e)
  {
  }

  lemma PutRemembers(c: Config, s: State, other: EventId, event: Event, e: EventId)
    requires Remembered(c, s, e) && Enabled(c, s, Put(other, event))
    ensures Remembered(c, AfterPut(c, s, other, event), e)
  {
    hide ExistsAtTime, ScoresFrom;
  }

  lemma StepRemembers(c: Config, s: State, step: Step, e: EventId)
    requires Remembered(c, s, e) && Enabled(c, s, step)
    ensures Remembered(c, Apply(c, s, step), e)
  {
    hide AfterFetch, AfterLog, AfterPut, KeptEvents, RecentRows, Filter;
    match step
    case Fetch(w, read) => FetchRemembers(c, s, w, read, e);
    case Log(w, stored) => LogRemembers(c, s, w, stored, e);
    case Put(other, event) => PutRemembers(c, s, other, event, e);
    case Delete(gone) => DeleteRemembers(c, s, e, gone);
    case Archive => ArchiveRemembers(c, s, e);
    case _ =>
      hide Apply, Remembered;
      OthersRemember(c, s, step, e);
  }

  lemma OthersRemember(c: Config, s: State, step: Step, e: EventId)
    requires Remembered(c, s, e) && Enabled(c, s, step)
    requires !step.Fetch? && !step.Log? && !step.Put? && !step.Delete? && !step.Archive?
    ensures Remembered(c, Apply(c, s, step), e)
  {
    hide Remembered, PlanOf, Extended, AfterLook, AfterAsk, AfterPlan, Forgotten, ScoresFrom;
    hide AfterDecide, AfterDeactivate, AfterSettle, Moved, Polled;
    SameTablesRemember(c, s, Apply(c, s, step), e);
  }

  // ---------- what a running expansion still has to do ----------

  /** An instant of a running expansion's list lies inside the grace period, and has a row if it was
      handed over; past the look it was not. */
  ghost predicate IsClean(c: Config, s: State, job: Job) {
    && job.began == s.clock
    && (forall t :: t in job.todo ==>
          t > s.clock - c.gracePeriod && ((job.event, t) in s.moved ==> ExistsAtTime(s.rows, job.event, t)))
    && (job.todo != [] && !job.phase.Looking? ==> (job.event, job.todo[0]) !in s.moved)
  }

  ghost predicate JobsClean(c: Config, s: State, e: EventId) {
    forall j :: j in s.jobs && s.jobs[j].event == e ==> IsClean(c, s, s.jobs[j])
  }

  lemma PlanOfWindow(c: Config, e: Event, now: Instant)
    requires Expandable(e)
    ensures forall t :: t in PlanOf(c, e, now) ==> now - c.gracePeriod < t < now + c.lookAhead
  {
    hide Occurrences, Proposed;
    var sch := e.schedule.value;
    var all := Occurrences(sch, e.start, now - c.gracePeriod, now + c.lookAhead);
    forall t | t in PlanOf(c, e, now)
      ensures now - c.gracePeriod < t < now + c.lookAhead
    {
      assert t in Truncated(all, sch.count);
      assert t in all;
      OccurrencesExact(sch, e.start, now - c.gracePeriod, now + c.lookAhead, t);
    }
  }

  lemma BeginIsClean(c: Config, s: State, j: nat, e: EventId)
    requires c.gracePeriod <= c.retention && Remembered(c, s, e) && Enabled(c, s, Begin(j, e))
    requires IsAtomic(c, s, Begin(j, e), e)
    ensures IsClean(c, s, Job(e, s.clock, PlanOf(c, s.events[e], s.clock), Looking))
  {
    PlanOfWindow(c, s.events[e], s.clock);
    hide PlanOf, ExistsAtTime;
    assert forall t :: (e, t) in s.moved ==> (e, t).0 == e;
  }

  lemma NextIsClean(c: Config, s: State, job: Job)
    requires IsClean(c, s, job) && job.todo != []
    ensures IsClean(c, s, NextHead(job))
    ensures !ExistsAtTime(s.rows, job.event, job.todo[0]) ==> IsClean(c, s, job.(phase := Asking))
    ensures job.phase.Asking? ==> IsClean(c, s, job.(phase := Storing))
    ensures job.phase.Storing? ==> IsClean(c, s, job.(phase := Asking))
  {
    hide ExistsAtTime;
    assert forall t :: t in job.todo[1..] ==> t in job.todo;
  }

  // ---------- every atomic step keeps the jobs clean ----------

  /** Rows inside the grace period are kept, and nothing more of e is handed over. */
  predicate KeepsRecent(c: Config, s: State, s': State, e: EventId) {
    && s'.clock == s.clock && s'.moved == s.moved
    && forall r :: r in s.rows && r.event == e && r.at > s.clock - c.gracePeriod ==> r in s'.rows
  }

  lemma SameJobsClean(c: Config, s: State, s': State, e: EventId)
    requires JobsClean(c, s, e) && KeepsRecent(c, s, s', e)
    requires forall j :: j in s'.jobs && s'.jobs[j].event == e ==> j in s.jobs && s'.jobs[j] == s.jobs[j]
    ensures JobsClean(c, s', e)
  {
    forall j | j in s'.jobs && s'.jobs[j].event == e
      ensures IsClean(c, s', s'.jobs[j])
    {
      var job := s.jobs[j];
      forall t | t in job.todo && (job.event, t) in s'.moved
        ensures ExistsAtTime(s'.rows, e, t)
      {
        var r :| r in s.rows && r.event == e && r.at == t;
        assert r in s'.rows;
      }
    }
  }

  lemma OneJobClean(c: Config, s: State, s': State, j: nat, e: EventId)
    requires JobsClean(c, s, e)
    requires s'.clock == s.clock && s'.moved == s.moved && s'.rows == s.rows
    requires j in s'.jobs && s'.jobs == s.jobs[j := s'.jobs[j]]
    requires s'.jobs[j].event == e ==> IsClean(c, s, s'.jobs[j])
    ensures JobsClean(c, s', e)
  {
    hide ExistsAtTime;
  }

  lemma PlanningStepClean(c: Config, s: State, step: Step, e: EventId)
    requires c.gracePeriod <= c.retention && Remembered(c, s, e) && JobsClean(c, s, e)
    requires Enabled(c, s, step) && IsAtomic(c, s, step, e)
    requires step.Begin? || step.BeginOnce? || step.Look? || step.Ask? || step.Plan?
    ensures JobsClean(c, Apply(c, s, step), e)
  {
    var s' := Apply(c, s, step);
    var j := step.j;
    if step.Begin? {
      if step.e == e {
        BeginIsClean(c, s, j, e);
      }
    } else if !step.BeginOnce? {
      if s.jobs[j].event == e {
        NextIsClean(c, s, s.jobs[j]);
      }
    }
    hide Remembered, JobsClean, IsClean, ExistsAtTime, PlanOf, Entered, KeyFor, ScoresFrom, SameTables, HeadItem;
    OneJobClean(c, s, s', j, e);
  }

  lemma RowStepClean(c: Config, s: State, step: Step, e: EventId)
    requires JobsClean(c, s, e) && Enabled(c, s, step) && (step.Fetch? || step.Log?)
    ensures JobsClean(c, Apply(c, s, step), e)
  {
    if step.Fetch? {
      FetchShape(s, step.w, step.read);
    }
    hide JobsClean, AfterFetch, SameTables, ScoresFrom;
    SameJobsClean(c, s, Apply(c, s, step), e);
  }

  lemma TableStepClean(c: Config, s: State, step: Step, e: EventId)
    requires c.gracePeriod <= c.retention && JobsClean(c, s, e)
    requires Enabled(c, s, step) && IsAtomic(c, s, step, e) && (step.Delete? || step.Archive?)
    ensures JobsClean(c, Apply(c, s, step), e)
  {
    if step.Archive? || step.e != e {
      hide JobsClean, KeptEvents;
      SameJobsClean(c, s, Apply(c, s, step), e);
    }
  }

  lemma MoveStepClean(c: Config, s: State, k: Key, e: EventId)
    requires JobsClean(c, s, e) && Enabled(c, s, Move(k)) && IsAtomic(c, s, Move(k), e)
    ensures JobsClean(c, Apply(c, s, Move(k)), e)
  {
    hide ExistsAtTime;
    if s.redis.data[k].event != e {
      assert forall t :: (e, t) != (s.redis.data[k].event, s.redis.data[k].at);
    }
  }

  lemma AdvanceClean(c: Config, s: State, to: Instant, e: EventId)
    requires JobsClean(c, s, e) && IsAtomic(c, s, Advance(to), e)
    ensures JobsClean(c, s.(clock := to), e)
  {
    assert to == s.clock ==> s.(clock := to) == s;
  }

  lemma StepKeepsClean(c: Config, s: State, step: Step, e: EventId)
    requires c.gracePeriod <= c.retention && Remembered(c, s, e) && JobsClean(c, s, e)
    requires Enabled(c, s, step) && IsAtomic(c, s, step, e)
    ensures JobsClean(c, Apply(c, s, step), e)
  {
    hide Remembered, JobsClean, PlanOf, AfterFetch, AfterLog, AfterPlan, AfterLook, AfterAsk, KeptEvents, RecentRows;
    match step
    case Fetch(w, read) => RowStepClean(c, s, step, e);
    case Log(w, stored) => RowStepClean(c, s, step, e);
    case Delete(other) => TableStepClean(c, s, step, e);
    case Archive => TableStepClean(c, s, step, e);
    case Move(k) => MoveStepClean(c, s, k, e);
    case Advance(to) => AdvanceClean(c, s, to, e);
    case Begin(j, other) => PlanningStepClean(c, s, step, e);
    case BeginOnce(j, other) => PlanningStepClean(c, s, step, e);
    case Look(j, answered) => PlanningStepClean(c, s, step, e);
    case Ask(j, answered) => PlanningStepClean(c, s, step, e);
    case Plan(j, id, planned) => PlanningStepClean(c, s, step, e);
    case _ => OtherStepClean(c, s, step, e);
  }

  lemma OtherStepClean(c: Config, s: State, step: Step, e: EventId)
    requires JobsClean(c, s, e) && Enabled(c, s, step)
    requires !step.Fetch? && !step.Log? && !step.Delete? && !step.Archive? && !step.Move? && !step.Advance?
    requires !step.Begin? && !step.BeginOnce? && !step.Look? && !step.Ask? && !step.Plan?
    ensures JobsClean(c, Apply(c, s, step), e)
  {
    hide JobsClean, Extended, AfterDecide, AfterDeactivate, AfterSettle, AfterPut, ScoresFrom;
    SameJobsClean(c, s, Apply(c, s, step), e);
  }

  // ---------- the theorem ----------

  lemma AtomicIsFresh(c: Config, s: State, step: Step, e: EventId)
    requires JobsClean(c, s, e) && Enabled(c, s, step)
    ensures IsFresh(s, step, e)
  {
  }

  lemma {:induction false} AtomicRunIsFresh(c: Config, s: State, steps: seq<Step>, e: EventId)
    requires c.gracePeriod <= c.retention && Remembered(c, s, e) && JobsClean(c, s, e)
    requires AtomicRun(c, s, steps, e)
    ensures FreshRun(c, s, steps, e)
    decreases |steps|
  {
    hide Enabled, Apply, IsAtomic, IsFresh, Remembered, JobsClean;
    if steps != [] {
      AtomicIsFresh(c, s, steps[0], e);
      StepRemembers(c, s, steps[0], e);
      StepKeepsClean(c, s, steps[0], e);
      AtomicRunIsFresh(c, Apply(c, s, steps[0]), steps[1..], e);
    }
  }

  /** With gracePeriod <= retention, in every run from the empty system whose expansions of e are atomic
      and begin only when every instant of e inside the grace period that was handed over has logged a row,
      each instant of e is handed to the dispatch queue at most once: losses older than that, archiving,
      retries, crashes, edits, deletions, other events and any number of workers interleaved. */
  lemma MovedAtMostOnce(c: Config, s0: State, steps: seq<Step>, e: EventId, t: Instant)
    requires Initial(s0) && c.gracePeriod <= c.retention && AtomicRun(c, s0, steps, e)
    ensures Run(c, s0, steps) && Final(c, s0, steps).moved[(e, t)] <= 1
  {
    InitialInv(c, s0);
    assert Once(s0, e) && Remembered(c, s0, e) && JobsClean(c, s0, e);
    hide Initial, Inv, Remembered, JobsClean;
    AtomicRunIsFresh(c, s0, steps, e);
    FreshRunKeepsOnce(c, s0, steps, e);
  }
}
