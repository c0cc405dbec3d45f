/** No missed instants: while expansions of an event begin less than lookAhead apart, every instant
    of its series is pending in Redis before it is due. */
module NoMissed {
  import opened Times
  import opened Recurrence
  import opened RecurrenceLaws
  import opened Tables
  import opened Redis
  import opened Pipeline
  import opened Conservation
  import opened Dispatching
  import opened Handover
  import opened Inactivation

  predicate SamePlan(a: Event, b: Event) {
    a.start == b.start && a.schedule == b.schedule
  }

  /** Recurring, without Count, and of the same instants in every window. */
  ghost predicate IsSteady(ev: Event) {
    && Expandable(ev)
    && ev.schedule.value.count.None?
    && IsSliced(ev.schedule.value, ev.start)
  }

  /** x is an instant of the event's series, before its Until. */
  ghost predicate Belongs(ev: Event, x: Instant)
    requires Expandable(ev)
  {
    && Occurs(ev.schedule.value, ev.start, x)
    && (ev.schedule.value.until.Before? ==> x < ev.schedule.value.until.bound)
  }

  /** The expander's list is exactly the series' slice of its window. */
  lemma PlanOfExact(c: Config, ev: Event, now: Instant, x: Instant)
    requires IsSteady(ev)
    ensures x in PlanOf(c, ev, now) <==>
            now - c.gracePeriod < x < now + c.lookAhead && Belongs(ev, x)
  {
    hide IsSliced, Occurrences, Occurs;
    var sch := ev.schedule.value;
    Slice(sch, ev.start, now - c.gracePeriod, now + c.lookAhead, x);
  }

  ghost predicate SecondMoved(s: State, e: EventId, second: int) {
    exists y :: (e, y) in s.moved && Unix(y) == second
  }

  /** Pending in the hash, or its second has been handed over. */
  ghost predicate Accounted(s: State, e: EventId, x: Instant) {
    KeyFor(e, x) in s.redis.data || SecondMoved(s, e, Unix(x))
  }

  // ---------- the discipline ----------

  predicate IsActive(s: State, e: EventId) {
    e in s.events && s.events[e].status.Active?
  }

  predicate IsJobOf(s: State, j: nat, e: EventId) {
    j in s.jobs && s.jobs[j].event == e
  }

  /** Nobody edits, deletes or unplans e, its planning calls succeed or are tried again, a job of e
      finishes within the look-ahead, and while e is active the clock does not run out of its horizon. */
  predicate Faithful(c: Config, s: State, step: Step, e: EventId) {
    match step
    case Put(other, _) => other != e
    case Delete(other) => other != e
    case Unplan(k) => k.event != e
    case Look(j, answered) => IsJobOf(s, j, e) ==> answered
    case Ask(j, answered) => IsJobOf(s, j, e) ==> answered
    case Plan(j, _, planned) => IsJobOf(s, j, e) ==> planned.Stored? || planned.again
    case Finish(j) => IsJobOf(s, j, e) ==> s.clock < s.jobs[j].began + c.lookAhead
    case Advance(to) => e in s.reached && IsActive(s, e) ==> to < s.reached[e].to
    case _ => true
  }

  predicate FaithfulRun(c: Config, s: State, steps: seq<Step>, e: EventId)
    decreases |steps|
  {
    steps == [] ||
    (Enabled(c, s, steps[0]) && Faithful(c, s, steps[0], e) && FaithfulRun(c, Apply(c, s, steps[0]), steps[1..], e))
  }

  // ---------- accounting is never undone ----------

  ghost predicate EntriesAccounted(s: State, s': State, e: EventId) {
    && (forall k :: k in s.redis.data && k.event == e ==> k in s'.redis.data || SecondMoved(s', e, k.second))
    && s.moved <= s'.moved
  }

  lemma AccountedStays(s: State, s': State, e: EventId)
    requires EntriesAccounted(s, s', e)
    ensures forall x :: Accounted(s, e, x) ==> Accounted(s', e, x)
  {
  }

  lemma MoveAccounts(c: Config, s: State, k: Key, e: EventId)
    requires Traced(c, s) && Enabled(c, s, Move(k))
    ensures EntriesAccounted(s, Apply(c, s, Move(k)), e)
  {
    assert Ok(c, s, InHash(k));
    hide Traced, Ok;
    var s' := Apply(c, s, Move(k));
    var it := s.redis.data[k];
    assert (it.event, it.at) in s'.moved && Unix(it.at) == k.second;
  }

  lemma FetchAccounts(c: Config, s: State, w: nat, read: Read, e: EventId)
    requires Traced(c, s) && w in s.hands && s.hands[w].Popped?
    ensures EntriesAccounted(s, AfterFetch(s, w, read), e)
  {
    var it := s.hands[w].item;
    var k := KeyOf(it);
    assert WasMoved(s, it);
    hide Traced;
    FetchRedis(s, w, read);
    hide AfterFetch;
    assert k.event == e ==> SecondMoved(AfterFetch(s, w, read), e, k.second);
  }

  lemma PlanKeepsEntries(s: State, j: nat, id: OccurrenceId, planned: Planned)
    requires HasHead(s, j)
    ensures s.redis.data.Keys <= AfterPlan(s, j, id, planned).redis.data.Keys
  {
    hide Planning, SameTables, KeyOf;
  }

  /** The step is no removal of the event's plan. */
  predicate KeepsPlan(step: Step, e: EventId) {
    step.Unplan? ==> step.k.event != e
  }

  lemma StepAccounts(c: Config, s: State, step: Step, e: EventId)
    requires Traced(c, s) && Enabled(c, s, step) && KeepsPlan(step, e)
    ensures EntriesAccounted(s, Apply(c, s, step), e)
  {
    hide Traced, PlanOf, Extended, AfterLook, AfterAsk, AfterPlan, AfterPut;
    hide AfterFetch, AfterLog, AfterDecide, AfterDeactivate, AfterSettle, RecentRows, KeptEvents;
    match step
    case Move(k) => MoveAccounts(c, s, k, e);
    case Fetch(w, read) => FetchAccounts(c, s, w, read, e);
    case Plan(j, id, planned) => PlanKeepsEntries(s, j, id, planned);
    case _ =>
  }

  // ---------- the event stays the same ----------

  predicate Carries(h: Hand) {
    h.Fetched? || h.Executed? || h.Logged? || h.Deactivating?
  }

  ghost predicate PlansFit(s: State, e: EventId, ev: Event) {
    && (e in s.events ==> SamePlan(s.events[e], ev))
    && (forall w :: w in s.hands && s.hands[w].item.event == e && Carries(s.hands[w]) ==>
          SamePlan(s.hands[w].event, ev))
  }

  /** One worker changes hands, or writes the event back as it holds it but for the status. */
  lemma HandKeepsPlans(s: State, s': State, w: nat, e: EventId, ev: Event)
    requires PlansFit(s, e, ev) && w in s.hands
    requires s'.hands == s.hands - {w} || (w in s'.hands && s'.hands == s.hands[w := s'.hands[w]])
    requires w in s'.hands && s'.hands[w].item.event == e && Carries(s'.hands[w]) ==> SamePlan(s'.hands[w].event, ev)
    requires e in s'.events ==> SamePlan(s'.events[e], ev)
    ensures PlansFit(s', e, ev)
  {
  }

  lemma WorkerKeepsPlans(c: Config, s: State, step: Step, e: EventId, ev: Event)
    requires PlansFit(s, e, ev) && Enabled(c, s, step)
    requires step.Execute? || step.Log? || step.Decide? || step.Deactivate? || step.Settle? || step.Crash?
    ensures PlansFit(Apply(c, s, step), e, ev)
  {
    hide AfterSettle, ShouldDeactivate, ScoresFrom;
    HandKeepsPlans(s, Apply(c, s, step), step.w, e, ev);
  }

  lemma FetchKeepsPlans(s: State, w: nat, read: Read, e: EventId, ev: Event)
    requires PlansFit(s, e, ev) && w in s.hands && s.hands[w].Popped?
    ensures PlansFit(AfterFetch(s, w, read), e, ev)
  {
    FetchShape(s, w, read);
    hide AfterFetch, Insert;
    HandKeepsPlans(s, AfterFetch(s, w, read), w, e, ev);
  }

  lemma StepKeepsPlans(c: Config, s: State, step: Step, e: EventId, ev: Event)
    requires PlansFit(s, e, ev) && Enabled(c, s, step) && Faithful(c, s, step, e) && e in s.created
    ensures PlansFit(Apply(c, s, step), e, ev)
  {
    if step.Fetch? {
      hide PlansFit, AfterFetch;
      FetchKeepsPlans(s, step.w, step.read, e, ev);
    } else if step.Put? {
      PutKeepsPlans(c, s, step.e, step.event, e, ev);
    } else if step.Execute? || step.Log? || step.Decide? || step.Deactivate? || step.Settle? || step.Crash? {
      hide Apply, PlansFit;
      WorkerKeepsPlans(c, s, step, e, ev);
    } else {
      hide PlanOf, Extended, AfterLook, AfterAsk, AfterPlan, Forgotten, ScoresFrom;
      hide RecentRows, HasRecentRow, Filter, Moved, Polled, Tries;
    }
  }

  lemma PutKeepsPlans(c: Config, s: State, other: EventId, event: Event, e: EventId, ev: Event)
    requires PlansFit(s, e, ev) && other != e
    ensures PlansFit(AfterPut(c, s, other, event), e, ev)
  {
  }

  // ---------- jobs and the horizon ----------

  /** What a job of e has not planned yet is still on its list. */
  ghost predicate JobsCover(c: Config, s: State, e: EventId, ev: Event)
    requires Expandable(ev)
  {
    forall j, x | j in s.jobs && s.jobs[j].event == e && Belongs(ev, x) &&
                  s.jobs[j].began - c.gracePeriod < x < s.jobs[j].began + c.lookAhead ::
      x in s.jobs[j].todo || Accounted(s, e, x)
  }

  /** While e is active its horizon lies ahead of the clock, and everything of the series inside it is
      accounted for. */
  ghost predicate HorizonCovered(s: State, e: EventId, ev: Event)
    requires Expandable(ev)
  {
    e in s.reached && IsActive(s, e) ==>
      && s.clock < s.reached[e].to
      && forall x :: Belongs(ev, x) && s.reached[e].from < x < s.reached[e].to ==> Accounted(s, e, x)
  }

  /** Expansions read the clock in the past. */
  ghost predicate ReadBefore(s: State, e: EventId) {
    && (forall j :: IsJobOf(s, j, e) ==> s.jobs[j].began <= s.clock)
    && (e in s.reached ==> s.reached[e].from <= s.clock)
  }

  lemma BeginCovers(c: Config, s: State, j: nat, other: EventId, e: EventId, ev: Event)
    requires IsSteady(ev) && JobsCover(c, s, e, ev) && PlansFit(s, e, ev) && Enabled(c, s, Begin(j, other))
    ensures JobsCover(c, Apply(c, s, Begin(j, other)), e, ev)
  {
    var s' := Apply(c, s, Begin(j, other));
    assert forall x :: Accounted(s', e, x) <==> Accounted(s, e, x);
    if other == e {
      forall x | Belongs(ev, x) && s.clock - c.gracePeriod < x < s.clock + c.lookAhead
        ensures x in s'.jobs[j].todo
      {
        PlanOfExact(c, ev, s.clock, x);
        SamePlanSameList(c, s.events[e], ev, s.clock);
      }
    }
    hide Belongs, Accounted, PlanOf;
  }

  lemma SamePlanSameList(c: Config, a: Event, b: Event, now: Instant)
    requires SamePlan(a, b) && Expandable(a)
    ensures PlanOf(c, a, now) == PlanOf(c, b, now)
  {
    hide Occurrences, Truncated, BeforeUntil;
  }

  /** A job of e goes on to the next instant only when the head is accounted for. */
  ghost predicate HeadDone(s: State, s': State, j: nat, e: EventId)
    requires HasHead(s, j)
  {
    && j in s'.jobs && s'.jobs == s.jobs[j := s'.jobs[j]]
    && s'.jobs[j].event == s.jobs[j].event && s'.jobs[j].began == s.jobs[j].began
    && (s.jobs[j].event == e ==>
          s'.jobs[j].todo == s.jobs[j].todo ||
          (s'.jobs[j].todo == s.jobs[j].todo[1..] && Accounted(s', e, s.jobs[j].todo[0])))
  }

  lemma HeadDoneCovers(c: Config, s: State, s': State, j: nat, e: EventId, ev: Event)
    requires Expandable(ev) && JobsCover(c, s, e, ev) && EntriesAccounted(s, s', e)
    requires HasHead(s, j) && HeadDone(s, s', j, e)
    ensures JobsCover(c, s', e, ev)
  {
    AccountedStays(s, s', e);
    var todo := s.jobs[j].todo;
    assert forall x :: x in todo ==> x == todo[0] || x in todo[1..];
    hide Belongs, Accounted, EntriesAccounted;
  }

  /** A row means that the instant has been handed over. */
  lemma LookDone(c: Config, s: State, j: nat, answered: bool, e: EventId)
    requires Traced(c, s) && HasHead(s, j) && Faithful(c, s, Look(j, answered), e)
    ensures HeadDone(s, AfterLook(s, j, answered), j, e)
  {
    hide Inv, OnTime, Known, KeyFor;
    var job := s.jobs[j];
    if ExistsAtTime(s.rows, job.event, job.todo[0]) {
      var r :| r in s.rows && r.event == job.event && r.at == job.todo[0];
      assert (r.event, r.at) in s.moved;
    }
  }

  lemma AskDone(c: Config, s: State, j: nat, answered: bool, e: EventId)
    requires HasHead(s, j) && Faithful(c, s, Ask(j, answered), e)
    ensures HeadDone(s, AfterAsk(s, j, answered), j, e)
  {
    hide KeyFor;
  }

  lemma PlanDone(c: Config, s: State, j: nat, id: OccurrenceId, planned: Planned, e: EventId)
    requires HasHead(s, j) && Faithful(c, s, Plan(j, id, planned), e)
    ensures HeadDone(s, AfterPlan(s, j, id, planned), j, e)
  {
    hide KeyFor, Planning, SameTables;
  }

  /** While e is active a finished expansion joins the horizon: it read the clock at most now, which is
      inside, and reaches beyond now. */
  lemma FinishCovers(c: Config, s: State, j: nat, e: EventId, ev: Event)
    requires Expandable(ev) && JobsCover(c, s, e, ev) && HorizonCovered(s, e, ev) && ReadBefore(s, e)
    requires c.gracePeriod >= 0 && Enabled(c, s, Finish(j)) && Faithful(c, s, Finish(j), e)
    ensures HorizonCovered(Apply(c, s, Finish(j)), e, ev)
  {
    var s' := Apply(c, s, Finish(j));
    assert forall x :: Accounted(s', e, x) <==> Accounted(s, e, x);
    assert s.jobs[j].event == e ==> IsJobOf(s, j, e);
    hide Belongs, Accounted;
  }

  ghost predicate Covered(c: Config, s: State, e: EventId, ev: Event) {
    && IsSteady(ev) && e in s.created && c.gracePeriod >= 0
    && PlansFit(s, e, ev) && JobsCover(c, s, e, ev) && HorizonCovered(s, e, ev) && ReadBefore(s, e)
  }

  /** Steps that leave jobs and horizon of e alone. */
  lemma CoverStays(c: Config, s: State, s': State, e: EventId, ev: Event)
    requires Expandable(ev) && JobsCover(c, s, e, ev) && HorizonCovered(s, e, ev)
    requires EntriesAccounted(s, s', e) && (IsActive(s', e) ==> IsActive(s, e))
    requires forall j :: IsJobOf(s', j, e) ==> j in s.jobs && s'.jobs[j] == s.jobs[j]
    requires e in s'.reached ==> e in s.reached && s'.reached[e] == s.reached[e]
    requires e in s.reached && IsActive(s', e) ==> s'.clock < s.reached[e].to
    ensures JobsCover(c, s', e, ev) && HorizonCovered(s', e, ev)
  {
    AccountedStays(s, s', e);
    hide EntriesAccounted, Belongs, Accounted;
    assert forall j :: j in s'.jobs && s'.jobs[j].event == e ==> IsJobOf(s', j, e);
  }

  lemma PutKeepsInactive(c: Config, s: State, other: EventId, event: Event, e: EventId)
    requires other != e
    ensures IsActive(AfterPut(c, s, other, event), e) ==> IsActive(s, e)
  {
  }

  lemma StaysInactive(c: Config, s: State, step: Step, e: EventId)
    requires Enabled(c, s, step) && Faithful(c, s, step, e)
    ensures IsActive(Apply(c, s, step), e) ==> IsActive(s, e)
  {
    if step.Put? {
      PutKeepsInactive(c, s, step.e, step.event, e);
    } else {
      NeverReactivated(c, s, step, e);
      hide Apply, Enabled;
    }
  }

  lemma PutReads(c: Config, s: State, other: EventId, event: Event, e: EventId)
    requires ReadBefore(s, e) && other != e
    ensures ReadBefore(AfterPut(c, s, other, event), e)
  {
  }

  lemma FinishReads(c: Config, s: State, j: nat, e: EventId)
    requires ReadBefore(s, e) && Enabled(c, s, Finish(j)) && c.gracePeriod >= 0
    ensures ReadBefore(Apply(c, s, Finish(j)), e)
  {
    assert s.jobs[j].event == e ==> IsJobOf(s, j, e);
    assert forall i :: IsJobOf(Apply(c, s, Finish(j)), i, e) ==> IsJobOf(s, i, e);
  }

  /** Steps that begin no expansion of e: jobs go on or end, and the horizon stays. */
  lemma SameReads(s: State, s': State, e: EventId)
    requires ReadBefore(s, e) && s.clock <= s'.clock && s'.reached == s.reached
    requires forall i :: IsJobOf(s', i, e) ==> IsJobOf(s, i, e) && s'.jobs[i].began == s.jobs[i].began
    ensures ReadBefore(s', e)
  {
  }

  lemma HeadReads(c: Config, s: State, step: Step, e: EventId)
    requires ReadBefore(s, e) && Enabled(c, s, step) && (step.Look? || step.Ask? || step.Plan?)
    ensures ReadBefore(Apply(c, s, step), e)
  {
    hide Entered, ExistsAtTime, KeyFor, ReadBefore, HeadItem, ScoresFrom, SameTables;
    SameReads(s, Apply(c, s, step), e);
  }

  lemma BeginReads(c: Config, s: State, j: nat, job: Job, e: EventId)
    requires ReadBefore(s, e) && job.began == s.clock
    ensures ReadBefore(WithJob(s, j, job), e)
  {
    assert forall i :: IsJobOf(WithJob(s, j, job), i, e) && i != j ==> IsJobOf(s, i, e);
  }

  lemma OthersRead(c: Config, s: State, step: Step, e: EventId)
    requires ReadBefore(s, e) && Enabled(c, s, step)
    requires !step.Look? && !step.Ask? && !step.Plan? && !step.Begin? && !step.BeginOnce? && !step.Finish? && !step.Put?
    ensures ReadBefore(Apply(c, s, step), e)
  {
    hide ReadBefore, ScoresFrom, SameTables, KeptEvents, RecentRows, Filter;
    hide AfterFetch, AfterLog, AfterDecide, AfterDeactivate, AfterSettle, Forgotten;
    SameReads(s, Apply(c, s, step), e);
  }

  lemma StepReads(c: Config, s: State, step: Step, e: EventId)
    requires ReadBefore(s, e) && Enabled(c, s, step) && Faithful(c, s, step, e) && c.gracePeriod >= 0
    ensures ReadBefore(Apply(c, s, step), e)
  {
    hide ReadBefore, PlanOf, Extended, AfterPlan, AfterLook, AfterAsk, AfterPut;
    if step.Look? || step.Ask? || step.Plan? {
      hide Apply, Enabled;
      HeadReads(c, s, step, e);
    } else {
      match step
      case Put(other, event) => PutReads(c, s, other, event, e);
      case Finish(j) => FinishReads(c, s, j, e);
      case Begin(j, other) => BeginReads(c, s, j, Job(other, s.clock, PlanOf(c, s.events[other], s.clock), Looking), e);
      case BeginOnce(j, other) => BeginReads(c, s, j, Job(other, s.clock, [s.events[other].start], Asking), e);
      case _ => OthersRead(c, s, step, e);
    }
  }

  // ---------- steps ----------

  /** The three calls of a running expansion. */
  lemma HeadStepCovers(c: Config, s: State, step: Step, e: EventId, ev: Event)
    requires Covered(c, s, e, ev) && Traced(c, s) && Enabled(c, s, step) && Faithful(c, s, step, e)
    requires step.Look? || step.Ask? || step.Plan?
    ensures var s' := Apply(c, s, step); JobsCover(c, s', e, ev) && HorizonCovered(s', e, ev)
  {
    hide Traced, JobsCover, EntriesAccounted, HeadDone, Belongs, Accounted, AfterPlan, AfterLook, AfterAsk;
    StepAccounts(c, s, step, e);
    match step {
      case Look(j, answered) => LookDone(c, s, j, answered, e);
      case Ask(j, answered) => AskDone(c, s, j, answered, e);
      case Plan(j, id, planned) => PlanDone(c, s, j, id, planned, e);
    }
    hide PlansFit, ReadBefore, Faithful;
    HeadDoneCovers(c, s, Apply(c, s, step), step.j, e, ev);
    AccountedStays(s, Apply(c, s, step), e);
  }

  lemma FinishStepCovers(c: Config, s: State, j: nat, e: EventId, ev: Event)
    requires Covered(c, s, e, ev) && Enabled(c, s, Finish(j)) && Faithful(c, s, Finish(j), e)
    ensures var s' := Apply(c, s, Finish(j)); JobsCover(c, s', e, ev) && HorizonCovered(s', e, ev)
  {
    FinishCovers(c, s, j, e, ev);
    var s' := Apply(c, s, Finish(j));
    assert forall x :: Accounted(s', e, x) <==> Accounted(s, e, x);
    hide Belongs, Accounted;
  }

  lemma BeginStepCovers(c: Config, s: State, j: nat, other: EventId, e: EventId, ev: Event)
    requires Covered(c, s, e, ev) && Enabled(c, s, Begin(j, other))
    ensures var s' := Apply(c, s, Begin(j, other)); JobsCover(c, s', e, ev) && HorizonCovered(s', e, ev)
  {
    BeginCovers(c, s, j, other, e, ev);
    var s' := Apply(c, s, Begin(j, other));
    assert forall x :: Accounted(s', e, x) <==> Accounted(s, e, x);
    hide Belongs, Accounted;
  }

  lemma OtherStepCovers(c: Config, s: State, step: Step, e: EventId, ev: Event)
    requires Covered(c, s, e, ev) && Traced(c, s) && Enabled(c, s, step) && Faithful(c, s, step, e)
    requires !step.Look? && !step.Ask? && !step.Plan? && !step.Begin? && !step.Finish?
    ensures var s' := Apply(c, s, step); JobsCover(c, s', e, ev) && HorizonCovered(s', e, ev)
  {
    StepAccounts(c, s, step, e);
    StaysInactive(c, s, step, e);
    OthersLeaveJobs(c, s, step, e, ev);
    StaysInside(c, s, step, e, ev);
    hide Traced, EntriesAccounted, JobsCover, Apply, Enabled, IsActive, IsJobOf, Belongs, Accounted;
    CoverStays(c, s, Apply(c, s, step), e, ev);
  }

  lemma OthersLeaveJobs(c: Config, s: State, step: Step, e: EventId, ev: Event)
    requires Covered(c, s, e, ev) && Enabled(c, s, step) && Faithful(c, s, step, e)
    requires !step.Look? && !step.Ask? && !step.Plan? && !step.Begin? && !step.Finish?
    ensures var s' := Apply(c, s, step);
            && (forall j :: IsJobOf(s', j, e) ==> j in s.jobs && s'.jobs[j] == s.jobs[j])
            && (e in s'.reached ==> e in s.reached && s'.reached[e] == s.reached[e])
  {
    hide PlanOf, Belongs, Accounted, ReadBefore, JobsCover, HorizonCovered;
    if step.BeginOnce? {
      hide Faithful;
      assert s.events[step.e].schedule.None?;
      assert step.e != e;
    } else {
      KeepsJobs(c, s, step, e);
      hide Apply, Enabled, Faithful;
    }
  }

  lemma KeepsJobs(c: Config, s: State, step: Step, e: EventId)
    requires Enabled(c, s, step) && Faithful(c, s, step, e) && e in s.created
    requires !step.Look? && !step.Ask? && !step.Plan? && !step.Begin? && !step.BeginOnce? && !step.Finish?
    ensures var s' := Apply(c, s, step);
            && s'.jobs == s.jobs
            && (e in s'.reached ==> e in s.reached && s'.reached[e] == s.reached[e])
  {
    hide SameTables, ScoresFrom, IsActive, Belongs, Accounted, ReadBefore, Planning;
    hide AfterFetch, AfterLog, AfterDecide, AfterDeactivate, AfterSettle, RecentRows, KeptEvents, Filter, AfterPut;
    if step.Put? {
      PutKeepsReached(c, s, step.e, step.event, e);
    }
  }

  lemma PutKeepsReached(c: Config, s: State, other: EventId, event: Event, e: EventId)
    requires other != e
    ensures var s' := AfterPut(c, s, other, event);
            e in s'.reached ==> e in s.reached && s'.reached[e] == s.reached[e]
  {
    hide Planning;
  }

  lemma StaysInside(c: Config, s: State, step: Step, e: EventId, ev: Event)
    requires Covered(c, s, e, ev) && Enabled(c, s, step) && Faithful(c, s, step, e)
    requires !step.Look? && !step.Ask? && !step.Plan? && !step.Begin? && !step.Finish?
    ensures var s' := Apply(c, s, step); e in s.reached && IsActive(s', e) ==> s'.clock < s.reached[e].to
  {
    StaysInactive(c, s, step, e);
    hide JobsCover, PlansFit, Forgotten, SameTables, ScoresFrom, IsActive, IsJobOf, Belongs, Accounted, ReadBefore;
    hide AfterFetch, AfterLog, AfterDecide, AfterDeactivate, AfterSettle, RecentRows, KeptEvents, Filter;
  }

  lemma StepCovers(c: Config, s: State, step: Step, e: EventId, ev: Event)
    requires Covered(c, s, e, ev) && Traced(c, s) && Enabled(c, s, step) && Faithful(c, s, step, e)
    ensures Covered(c, Apply(c, s, step), e, ev)
  {
    hide Traced, IsSteady, PlansFit, JobsCover, HorizonCovered, ReadBefore, Faithful;
    StepKeepsPlans(c, s, step, e, ev);
    StepReads(c, s, step, e);
    OnlyCreates(c, s, step);
    if step.Look? || step.Ask? || step.Plan? {
      HeadStepCovers(c, s, step, e, ev);
    } else {
      match step
      case Begin(j, other) => BeginStepCovers(c, s, j, other, e, ev);
      case Finish(j) => FinishStepCovers(c, s, j, e, ev);
      case _ => OtherStepCovers(c, s, step, e, ev);
    }
  }

  lemma OnlyCreates(c: Config, s: State, step: Step)
    requires Enabled(c, s, step)
    ensures s.created <= Apply(c, s, step).created
  {
    hide PlanOf, Extended, AfterLook, AfterAsk, AfterPlan, Forgotten;
    hide AfterFetch, AfterLog, AfterDecide, AfterDeactivate, AfterSettle, RecentRows, KeptEvents, Filter;
  }

  lemma {:induction false} RunCovers(c: Config, s: State, steps: seq<Step>, e: EventId, ev: Event)
    requires Covered(c, s, e, ev) && Traced(c, s) && FaithfulRun(c, s, steps, e)
    ensures Run(c, s, steps) && Covered(c, Final(c, s, steps), e, ev) && Traced(c, Final(c, s, steps))
    decreases |steps|
  {
    hide Enabled, Apply, Faithful, Covered, Traced;
    if steps != [] {
      StepCovers(c, s, steps[0], e, ev);
      StepKeepsTraced(c, s, steps[0]);
      RunCovers(c, Apply(c, s, steps[0]), steps[1..], e, ev);
    }
  }

  // ---------- creation ----------

  /** Creating an event starts covered: nothing refers to it yet, and if its start lies beyond the
      look-ahead window, nothing of its series is inside the horizon. */
  lemma CreationCovers(c: Config, s: State, e: EventId, ev: Event)
    requires Traced(c, s) && e !in s.created && IsSteady(ev) && c.lookAhead > 0 && c.gracePeriod >= 0
    requires forall w :: w in s.hands ==> s.hands[w].item.event in s.created
    ensures Covered(c, AfterPut(c, s, e, ev), e, ev)
  {
    CreationHorizon(c, s, e, ev);
    NothingRefers(c, s, e, ev);
    hide Traced, IsSteady, HorizonCovered, PlansFit, JobsCover, ReadBefore, Planning;
  }

  /** A new event has no job, no worker and, as it is written, its own row. */
  lemma NothingRefers(c: Config, s: State, e: EventId, ev: Event)
    requires Traced(c, s) && e !in s.created && Expandable(ev) && c.gracePeriod >= 0
    requires forall w :: w in s.hands ==> s.hands[w].item.event in s.created
    ensures var s' := AfterPut(c, s, e, ev); PlansFit(s', e, ev) && JobsCover(c, s', e, ev) && ReadBefore(s', e)
  {
    TracedIsKnown(c, s);
    hide Traced, Belongs, Accounted, ScoresFrom;
  }

  lemma CreationHorizon(c: Config, s: State, e: EventId, ev: Event)
    requires Traced(c, s) && e !in s.created && IsSteady(ev) && c.lookAhead > 0
    ensures HorizonCovered(AfterPut(c, s, e, ev), e, ev)
    ensures e in AfterPut(c, s, e, ev).reached ==> AfterPut(c, s, e, ev).reached[e].from == s.clock - c.gracePeriod
  {
    TracedIsKnown(c, s);
    hide Traced, Belongs, Accounted, IsSteady, Planning;
    forall x | Belongs(ev, x)
      ensures x >= ev.start
    {
      BelongsAfterStart(ev, x);
    }
    var s' := AfterPut(c, s, e, ev);
    assert e !in s.reached;
    if e in s'.reached {
      assert ev.start >= s.clock + c.lookAhead && s'.clock == s.clock;
      assert s'.reached[e] == Horizon(s.clock - c.gracePeriod, s.clock + c.lookAhead);
      hide AfterPut, Known;
    }
  }

  lemma BelongsAfterStart(ev: Event, x: Instant)
    requires IsSteady(ev) && Belongs(ev, x)
    ensures x >= ev.start
  {
    if x < ev.start {
      EarlyCandidate(ev.schedule.value, ev.start, x);
      assert false;
    }
  }

  lemma HandsAreKnown(c: Config, s: State)
    requires Traced(c, s)
    ensures forall w :: w in s.hands ==> s.hands[w].item.event in s.created
  {
    assert forall w :: w in s.hands ==> WasMoved(s, s.hands[w].item);
  }

  // ---------- the theorem ----------

  /** x lies inside the horizon that the clock may not leave. */
  ghost predicate IsAhead(c: Config, s: State, e: EventId, ev: Event, to: Instant, x: Instant)
    requires Expandable(ev)
  {
    && e in s.events && s.events[e].status.Active? && e in s.reached
    && Enabled(c, s, Advance(to)) && Faithful(c, s, Advance(to), e)
    && Belongs(ev, x) && s.reached[e].from < x <= to
  }

  lemma CoveredIsAccounted(c: Config, s: State, e: EventId, ev: Event, to: Instant, x: Instant)
    requires Covered(c, s, e, ev) && Traced(c, s) && IsAhead(c, s, e, ev, to, x)
    ensures Accounted(s, e, x) && (Unix(s.clock) < Unix(x) ==> KeyFor(e, x) in s.redis.data)
  {
    PendingWhileNotDue(s, c, e, x);
    hide Belongs, Accounted, Traced, PlansFit, JobsCover, IsSteady;
  }

  lemma CreatedIsCovered(c: Config, s0: State, before: seq<Step>, e: EventId, ev: Event)
    requires Initial(s0) && Run(c, s0, before) && c.lookAhead > 0 && c.gracePeriod >= 0
    requires e !in Final(c, s0, before).created && IsSteady(ev)
    ensures var s := AfterPut(c, Final(c, s0, before), e, ev); Traced(c, s) && Covered(c, s, e, ev)
  {
    InitiallyTraced(c, s0);
    RunKeepsTraced(c, s0, before);
    var s1 := Final(c, s0, before);
    hide Traced, Covered, Run, Initial, IsSteady, AfterPut;
    HandsAreKnown(c, s1);
    CreationCovers(c, s1, e, ev);
    TracedIsKnown(c, s1);
    PutKeepsTraced(c, s1, e, ev);
  }

  lemma PutKeepsTraced(c: Config, s: State, e: EventId, event: Event)
    requires Traced(c, s) && (e in s.created ==> e in s.events)
    ensures Traced(c, AfterPut(c, s, e, event))
  {
    hide Traced, AfterPut;
    StepKeepsTraced(c, s, Put(e, event));
  }

  lemma TracedIsKnown(c: Config, s: State)
    requires Traced(c, s)
    ensures Known(s)
  {
  }

  /** From any reachable state, create a recurring event e and run on faithfully, with any number of
      workers, jobs, retries, crashes, archivings and other events interleaved. Then, at any later
      moment before the clock passes an instant x of e's series that lies after the first finished
      expansion's grace start: x is accounted for, and while its second has not begun it is pending
      in Redis. */
  lemma NoInstantIsMissed(c: Config, s0: State, before: seq<Step>, e: EventId, ev: Event,
                          after: seq<Step>, to: Instant, x: Instant)
    requires Initial(s0) && Run(c, s0, before) && c.lookAhead > 0 && c.gracePeriod >= 0
    requires e !in Final(c, s0, before).created && IsSteady(ev)
    requires FaithfulRun(c, AfterPut(c, Final(c, s0, before), e, ev), after, e)
    ensures Run(c, AfterPut(c, Final(c, s0, before), e, ev), after)
    ensures var s := Final(c, AfterPut(c, Final(c, s0, before), e, ev), after);
            IsAhead(c, s, e, ev, to, x) ==>
              Accounted(s, e, x) && (Unix(s.clock) < Unix(x) ==> KeyFor(e, x) in s.redis.data)
  {
    CreatedIsCovered(c, s0, before, e, ev);
    var s2 := AfterPut(c, Final(c, s0, before), e, ev);
    hide AfterPut, Run, FaithfulRun, Traced, Covered, Accounted, KeyFor, IsAhead, Initial;
    RunCovers(c, s2, after, e, ev);
    if IsAhead(c, Final(c, s2, after), e, ev, to, x) {
      CoveredIsAccounted(c, Final(c, s2, after), e, ev, to, x);
    }
  }

  /** Ticks less than lookAhead apart are all that is asked of the clock: an expansion of e that reads
      the clock less than lookAhead after the one before joins its horizon, and the clock may then
      go on for less than lookAhead again. */
  lemma TicksSuffice(c: Config, s: State, j: nat, e: EventId, last: Instant, to: Instant)
    requires c.lookAhead > 0 && c.gracePeriod >= 0
    requires Enabled(c, s, Finish(j)) && s.jobs[j].event == e && s.jobs[j].began == s.clock
    requires e in s.reached ==>
               last <= s.clock < last + c.lookAhead &&
               s.reached[e].to == last + c.lookAhead && s.reached[e].from <= last - c.gracePeriod
    ensures Faithful(c, s, Finish(j), e)
    ensures var s' := Apply(c, s, Finish(j));
            && s'.reached[e].to == s.clock + c.lookAhead && s'.reached[e].from <= s.clock - c.gracePeriod
            && (e in s'.events && s'.events[e].status.Active? ==>
                  (Faithful(c, s', Advance(to), e) <==> to - s.clock < c.lookAhead))
  {
  }

  // ---------- in terms of ticks ----------

  /** When the latest finished expansion of e read the clock, after the step. */
  function LastTick(s: State, step: Step, e: EventId, last: Option<Instant>): Option<Instant> {
    if step.Finish? && IsJobOf(s, step.j, e) then
      Some(if last.Some? then Max(last.value, s.jobs[step.j].began) else s.jobs[step.j].began)
    else last
  }

  /** The clock stays less than lookAhead past the reading of every running expansion of e and, while e
      is active, of the latest finished one; e is not edited, deleted or unplanned, and its calls succeed
      or are tried again. */
  ghost predicate IsTicking(c: Config, s: State, step: Step, e: EventId, last: Option<Instant>) {
    match step
    case Advance(to) =>
      && (forall j :: IsJobOf(s, j, e) ==> to < s.jobs[j].began + c.lookAhead)
      && (IsActive(s, e) && last.Some? ==> to < last.value + c.lookAhead)
    case Finish(_) => true
    case _ => Faithful(c, s, step, e)
  }

  ghost predicate TickRun(c: Config, s: State, steps: seq<Step>, e: EventId, last: Option<Instant>)
    decreases |steps|
  {
    steps == [] ||
    (Enabled(c, s, steps[0]) && IsTicking(c, s, steps[0], e, last) &&
     TickRun(c, Apply(c, s, steps[0]), steps[1..], e, LastTick(s, steps[0], e, last)))
  }

  /** The latest tick of a run. */
  function TickAfter(c: Config, s: State, steps: seq<Step>, e: EventId, last: Option<Instant>): Option<Instant>
    requires Run(c, s, steps)
    decreases |steps|
  {
    if steps == [] then last
    else TickAfter(c, Apply(c, s, steps[0]), steps[1..], e, LastTick(s, steps[0], e, last))
  }

  /** The horizon ends lookAhead after the latest tick, and running expansions are within theirs. */
  ghost predicate Ticked(c: Config, s: State, e: EventId, last: Option<Instant>) {
    && (last.Some? <==> e in s.reached)
    && (last.Some? ==> s.reached[e].to == last.value + c.lookAhead)
    && (forall j :: IsJobOf(s, j, e) ==> s.clock < s.jobs[j].began + c.lookAhead)
  }

  lemma SameTicked(c: Config, s: State, s': State, e: EventId, last: Option<Instant>)
    requires Ticked(c, s, e, last) && s'.clock == s.clock && (e in s'.reached <==> e in s.reached)
    requires e in s.reached ==> s'.reached[e] == s.reached[e]
    requires forall j :: IsJobOf(s', j, e) ==> IsJobOf(s, j, e) && s'.jobs[j].began == s.jobs[j].began
    ensures Ticked(c, s', e, last)
  {
  }

  lemma BeginTicked(c: Config, s: State, j: nat, job: Job, e: EventId, last: Option<Instant>)
    requires Ticked(c, s, e, last) && job.began == s.clock && c.lookAhead > 0
    ensures Ticked(c, WithJob(s, j, job), e, last)
  {
    assert forall i :: IsJobOf(WithJob(s, j, job), i, e) && i != j ==> IsJobOf(s, i, e);
  }

  lemma FinishTicked(c: Config, s: State, j: nat, e: EventId, last: Option<Instant>)
    requires Ticked(c, s, e, last) && Enabled(c, s, Finish(j))
    ensures Faithful(c, s, Finish(j), e)
    ensures Ticked(c, Apply(c, s, Finish(j)), e, LastTick(s, Finish(j), e, last))
  {
    var s' := Apply(c, s, Finish(j));
    assert s.jobs[j].event == e <==> IsJobOf(s, j, e);
    assert forall i :: IsJobOf(s', i, e) ==> IsJobOf(s, i, e);
  }

  lemma HeadTicked(c: Config, s: State, step: Step, e: EventId, last: Option<Instant>)
    requires Ticked(c, s, e, last) && Enabled(c, s, step) && (step.Look? || step.Ask? || step.Plan?)
    ensures Ticked(c, Apply(c, s, step), e, last)
  {
    hide Entered, ExistsAtTime, KeyFor, Ticked, HeadItem, ScoresFrom, SameTables;
    SameTicked(c, s, Apply(c, s, step), e, last);
  }

  lemma OtherTicked(c: Config, s: State, step: Step, e: EventId, last: Option<Instant>)
    requires Ticked(c, s, e, last) && Enabled(c, s, step) && IsTicking(c, s, step, e, last)
    requires !step.Look? && !step.Ask? && !step.Plan? && !step.Begin? && !step.BeginOnce? && !step.Finish?
    requires !step.Advance?
    ensures Ticked(c, Apply(c, s, step), e, last)
  {
    hide Ticked, ScoresFrom, SameTables, KeptEvents, RecentRows, Filter;
    hide AfterFetch, AfterLog, AfterDecide, AfterDeactivate, AfterSettle, Forgotten;
    SameTicked(c, s, Apply(c, s, step), e, last);
  }

  lemma StepTicked(c: Config, s: State, step: Step, e: EventId, last: Option<Instant>)
    requires Ticked(c, s, e, last) && Enabled(c, s, step) && IsTicking(c, s, step, e, last) && c.lookAhead > 0
    ensures Faithful(c, s, step, e)
    ensures Ticked(c, Apply(c, s, step), e, LastTick(s, step, e, last))
  {
    hide PlanOf, Extended, AfterPlan, AfterLook, AfterAsk, AfterPut;
    if step.Look? || step.Ask? || step.Plan? {
      hide Apply, Enabled, Ticked;
      HeadTicked(c, s, step, e, last);
    } else if step.Begin? {
      BeginTicked(c, s, step.j, Job(step.e, s.clock, PlanOf(c, s.events[step.e], s.clock), Looking), e, last);
    } else if step.BeginOnce? {
      BeginTicked(c, s, step.j, Job(step.e, s.clock, [s.events[step.e].start], Asking), e, last);
    } else if step.Finish? {
      hide Ticked, Apply;
      FinishTicked(c, s, step.j, e, last);
    } else if !step.Advance? {
      hide Ticked, Apply;
      OtherTicked(c, s, step, e, last);
    }
  }

  lemma {:induction false} TickRunIsFaithful(c: Config, s: State, steps: seq<Step>, e: EventId, last: Option<Instant>)
    requires Ticked(c, s, e, last) && TickRun(c, s, steps, e, last) && c.lookAhead > 0
    ensures FaithfulRun(c, s, steps, e) && Run(c, s, steps)
    ensures Ticked(c, Final(c, s, steps), e, TickAfter(c, s, steps, e, last))
    decreases |steps|
  {
    hide Enabled, Apply, Faithful, IsTicking, Ticked, LastTick;
    if steps != [] {
      StepTicked(c, s, steps[0], e, last);
      TickRunIsFaithful(c, Apply(c, s, steps[0]), steps[1..], e, LastTick(s, steps[0], e, last));
    }
  }

  /** Creating an event beyond the look-ahead window counts as a tick: nothing is due before the next. */
  function CreationTick(c: Config, s: State, ev: Event): Option<Instant> {
    if ev.start >= s.clock + c.lookAhead then Some(s.clock) else None
  }

  lemma CreationTicked(c: Config, s: State, e: EventId, ev: Event)
    requires Known(s) && e !in s.created
    ensures Ticked(c, AfterPut(c, s, e, ev), e, CreationTick(c, s, ev))
  {
    assert forall j :: IsJobOf(AfterPut(c, s, e, ev), j, e) ==> IsJobOf(s, j, e);
  }

  /** While expansions of e begin less than lookAhead apart, counted from its creation or its first
      expansion, and none takes lookAhead or longer, every instant x of the series beyond the first
      grace start is accounted for before the clock can reach it, and pending until its second begins. */
  lemma TicksMissNothing(c: Config, s0: State, before: seq<Step>, e: EventId, ev: Event,
                         after: seq<Step>, x: Instant)
    requires Initial(s0) && Run(c, s0, before) && c.lookAhead > 0 && c.gracePeriod >= 0
    requires e !in Final(c, s0, before).created && IsSteady(ev)
    requires var s1 := Final(c, s0, before);
             TickRun(c, AfterPut(c, s1, e, ev), after, e, CreationTick(c, s1, ev))
    ensures Run(c, AfterPut(c, Final(c, s0, before), e, ev), after)
    ensures var s1 := Final(c, s0, before);
            var s := Final(c, AfterPut(c, s1, e, ev), after);
            var last := TickAfter(c, AfterPut(c, s1, e, ev), after, e, CreationTick(c, s1, ev));
            IsActive(s, e) && last.Some? && Belongs(ev, x) && s.clock <= x < last.value + c.lookAhead ==>
              e in s.reached &&
              (s.reached[e].from < x ==>
                 Accounted(s, e, x) && (Unix(s.clock) < Unix(x) ==> KeyFor(e, x) in s.redis.data))
  {
    var s1 := Final(c, s0, before);
    var s2 := AfterPut(c, s1, e, ev);
    InitiallyTraced(c, s0);
    RunKeepsTraced(c, s0, before);
    TracedIsKnown(c, s1);
    CreationTicked(c, s1, e, ev);
    hide Initial, Traced, IsSteady, Belongs, Accounted, KeyFor, AfterPut, CreationTick;
    TickRunIsFaithful(c, s2, after, e, CreationTick(c, s1, ev));
    NoInstantIsMissed(c, s0, before, e, ev, after, x, x);
  }

  lemma PendingWhileNotDue(s: State, c: Config, e: EventId, x: Instant)
    requires Traced(c, s)
    ensures Accounted(s, e, x) && Unix(s.clock) < Unix(x) ==> KeyFor(e, x) in s.redis.data
  {
  }

  lemma InitiallyTraced(c: Config, s: State)
    requires Initial(s)
    ensures Traced(c, s)
  {
    InitialInv(c, s);
  }
}
