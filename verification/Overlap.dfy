/** Two calls of ScheduleEvent on one key: when an entry is overwritten, and when none is. */
module Overlap {
  import opened Times
  import opened Tables
  import opened Redis
  import opened Pipeline
  import opened Conservation

  function HeadKey(s: State, j: nat): Key
    requires HasHead(s, j)
  {
    KeyFor(s.jobs[j].event, s.jobs[j].todo[0])
  }

  predicate IsStoring(s: State, j: nat) {
    HasHead(s, j) && s.jobs[j].phase.Storing?
  }

  predicate IsOverwritten(s: State, id: OccurrenceId) {
    id in s.fate && s.fate[id].Overwritten?
  }

  /** The step ends an occurrence by overwriting its entry. */
  ghost predicate Overwrites(s: State, s': State) {
    exists id :: IsOverwritten(s', id) && !IsOverwritten(s, id)
  }

  lemma PlanOverwritesIff(s: State, j: nat, id: OccurrenceId, planned: Planned)
    requires Conserved(s) && HasHead(s, j)
    ensures Overwrites(s, AfterPlan(s, j, id, planned)) <==> planned.Stored? && HeadKey(s, j) in s.redis.data
  {
    hide Planning, SameTables, KeyFor, EnteredIn;
    var k := HeadKey(s, j);
    if k in s.redis.data && planned.Stored? {
      var first := s.redis.data[k].id;
      assert At(s, first, InHash(k));
      assert !IsOverwritten(s, first);
      assert IsOverwritten(AfterPlan(s, j, id, planned), first);
    }
  }

  lemma SettleDoesNot(c: Config, s: State, w: nat, requeued: bool)
    requires w in s.hands && s.hands[w].Returned?
    ensures !Overwrites(s, AfterSettle(c, s, w, requeued))
  {
    hide Working, SameTables, Unix;
    var s' := AfterSettle(c, s, w, requeued);
    var it := s.hands[w].item;
    if s.hands[w].ok {
      assert s'.fate == s.fate[it.id := Completed];
    } else if it.attempt + 1 >= c.maxRetries {
      assert s'.fate == s.fate[it.id := Dropped];
    } else if !requeued {
      assert s'.fate == s.fate[it.id := Lost];
    } else {
      assert s'.fate == s.fate;
    }
    hide AfterSettle;
  }

  lemma WorkerDoesNot(c: Config, s: State, step: Step)
    requires Enabled(c, s, step)
    requires step.Execute? || step.Log? || step.Decide? || step.Deactivate?
    ensures Apply(c, s, step).fate == s.fate
  {
    hide Working, SameTables, ShouldDeactivate;
  }

  lemma OthersDoNot(c: Config, s: State, step: Step)
    requires Enabled(c, s, step) && !step.Plan?
    ensures !Overwrites(s, Apply(c, s, step))
  {
    hide PlanOf, Extended, Working, SameTables, ScoresFrom, KeptEvents, RecentRows, KeyOf;
    hide Planning, ExistsAtTime, KeyFor, Filter, Moved, Polled, Removed, AfterFetch, AfterLook, AfterAsk;
    if step.Fetch? {
      FetchRedis(s, step.w, step.read);
    } else if step.Settle? {
      hide AfterSettle, Overwrites;
      SettleDoesNot(c, s, step.w, step.requeued);
    } else if step.Execute? || step.Log? || step.Decide? || step.Deactivate? {
      hide Apply;
      WorkerDoesNot(c, s, step);
    }
  }

  /** Exactly the HSET on a key with data overwrites. */
  lemma OverwritesIff(c: Config, s: State, step: Step)
    requires Conserved(s) && Enabled(c, s, step)
    ensures Overwrites(s, Apply(c, s, step)) <==>
            step.Plan? && step.planned.Stored? && HeadKey(s, step.j) in s.redis.data
  {
    hide Conserved, Overwrites, AfterPlan;
    if step.Plan? {
      PlanOverwritesIff(s, step.j, step.id, step.planned);
    } else {
      hide Apply;
      OthersDoNot(c, s, step);
    }
  }

  /** A job past HEXISTS finds its key still without data. */
  ghost predicate KeysAbsent(s: State) {
    forall j :: IsStoring(s, j) ==> HeadKey(s, j) !in s.redis.data
  }

  /** No other call on the key is between its HEXISTS and its HSET. */
  predicate Alone(s: State, step: Step) {
    step.Plan? && HasHead(s, step.j) ==>
      forall i | i in s.jobs && i != step.j && IsStoring(s, i) :: HeadKey(s, i) != HeadKey(s, step.j)
  }

  predicate AloneRun(c: Config, s: State, steps: seq<Step>)
    decreases |steps|
  {
    steps == [] ||
    (Enabled(c, s, steps[0]) && Alone(s, steps[0]) && AloneRun(c, Apply(c, s, steps[0]), steps[1..]))
  }

  lemma PlanKeepsAbsent(s: State, j: nat, id: OccurrenceId, planned: Planned)
    requires KeysAbsent(s) && IsStoring(s, j) && Alone(s, Plan(j, id, planned))
    ensures KeysAbsent(AfterPlan(s, j, id, planned))
  {
    hide Planning, SameTables, KeyFor;
  }

  lemma AskKeepsAbsent(s: State, j: nat, answered: bool)
    requires KeysAbsent(s) && HasHead(s, j)
    ensures KeysAbsent(AfterAsk(s, j, answered))
  {
    hide KeyFor;
    assert forall i :: i != j && IsStoring(AfterAsk(s, j, answered), i) ==> IsStoring(s, i);
  }

  lemma LookKeepsAbsent(s: State, j: nat, answered: bool)
    requires KeysAbsent(s) && HasHead(s, j)
    ensures KeysAbsent(AfterLook(s, j, answered))
  {
    hide ExistsAtTime, KeyFor;
    assert forall i :: i != j && IsStoring(AfterLook(s, j, answered), i) ==> IsStoring(s, i);
  }

  /** Steps that leave running jobs alone, but for the end of one and the beginning of others. */
  lemma FewerKeysKeepAbsent(s: State, s': State)
    requires KeysAbsent(s) && s'.redis.data.Keys <= s.redis.data.Keys
    requires forall j :: IsStoring(s', j) ==> j in s.jobs && s'.jobs[j] == s.jobs[j]
    ensures KeysAbsent(s')
  {
    assert forall j :: IsStoring(s', j) ==> IsStoring(s, j);
  }

  lemma StepKeepsAbsent(c: Config, s: State, step: Step)
    requires KeysAbsent(s) && Enabled(c, s, step) && Alone(s, step)
    ensures KeysAbsent(Apply(c, s, step))
  {
    if step.Plan? || step.Look? || step.Ask? {
      HeadKeepsAbsent(c, s, step);
    } else {
      OthersAddNoKeys(c, s, step);
      hide *;
      FewerKeysKeepAbsent(s, Apply(c, s, step));
    }
  }

  lemma HeadKeepsAbsent(c: Config, s: State, step: Step)
    requires KeysAbsent(s) && Enabled(c, s, step) && Alone(s, step)
    requires step.Plan? || step.Look? || step.Ask?
    ensures KeysAbsent(Apply(c, s, step))
  {
    hide KeysAbsent, PlanOf, AfterPlan, AfterAsk, AfterLook, OnlyJobs;
    match step
    case Plan(j, id, planned) => PlanKeepsAbsent(s, j, id, planned);
    case Look(j, answered) => LookKeepsAbsent(s, j, answered);
    case Ask(j, answered) => AskKeepsAbsent(s, j, answered);
  }

  lemma OthersAddNoKeys(c: Config, s: State, step: Step)
    requires Enabled(c, s, step) && !step.Plan? && !step.Look? && !step.Ask?
    ensures var s' := Apply(c, s, step);
            && s'.redis.data.Keys <= s.redis.data.Keys
            && forall j :: IsStoring(s', j) ==> j in s.jobs && s'.jobs[j] == s.jobs[j]
  {
    hide PlanOf, Extended, ScoresFrom, KeptEvents, RecentRows, Filter, AfterPut;
    hide AfterFetch, AfterLog, AfterDecide, AfterDeactivate, AfterSettle;
    if step.Fetch? {
      FetchRedis(s, step.w, step.read);
    }
  }

  /** While no two calls on one key overlap between HEXISTS and HSET, nothing is ever overwritten: each
      issued occurrence is completed, dropped, cancelled or lost to an error, or still in one place. */
  lemma {:induction false} AloneRunOverwritesNothing(c: Config, s: State, steps: seq<Step>)
    requires Conserved(s) && KeysAbsent(s) && AloneRun(c, s, steps)
    requires forall id :: !IsOverwritten(s, id)
    ensures Run(c, s, steps) && forall id :: !IsOverwritten(Final(c, s, steps), id)
    decreases |steps|
  {
    hide Enabled, Apply, Alone, Conserved, KeysAbsent, IsOverwritten;
    if steps != [] {
      NotOverwriting(c, s, steps[0]);
      StepConserves(c, s, steps[0]);
      StepKeepsAbsent(c, s, steps[0]);
      AloneRunOverwritesNothing(c, Apply(c, s, steps[0]), steps[1..]);
    }
  }

  lemma NotOverwriting(c: Config, s: State, step: Step)
    requires Conserved(s) && KeysAbsent(s) && Enabled(c, s, step)
    ensures !Overwrites(s, Apply(c, s, step))
  {
    OverwritesIff(c, s, step);
    hide Apply, Overwrites, Conserved;
    assert step.Plan? ==> IsStoring(s, step.j);
  }

  /** So it is in every such run from the empty system. */
  lemma AloneMeansNoneOverwritten(c: Config, s0: State, steps: seq<Step>, id: OccurrenceId)
    requires Initial(s0) && AloneRun(c, s0, steps)
    ensures Run(c, s0, steps) && Conserved(Final(c, s0, steps)) && !IsOverwritten(Final(c, s0, steps), id)
  {
    InitiallyConserved(s0);
    assert KeysAbsent(s0) && forall x :: !IsOverwritten(s0, x);
    hide Initial, Conserved, KeysAbsent, IsOverwritten, Run;
    AloneRunOverwritesNothing(c, s0, steps);
    RunConserves(c, s0, steps);
  }

  // ---------- with overlap ----------

  /** Two calls on one key that have both been told that it has no data: the second to write overwrites
      the first, whose occurrence is then nowhere. */
  lemma OverlapOverwrites(c: Config, s: State, i: nat, j: nat, a: OccurrenceId, b: OccurrenceId)
    requires Conserved(s) && IsStoring(s, i) && IsStoring(s, j) && i != j && HeadKey(s, i) == HeadKey(s, j)
    requires a !in s.issued && b !in s.issued && a != b
    ensures Run(c, s, [Plan(i, a, Stored), Plan(j, b, Stored)])
    ensures IsOverwritten(Final(c, s, [Plan(i, a, Stored), Plan(j, b, Stored)]), a)
  {
    hide Conserved, Planning, SameTables, KeyFor;
    var s1 := AfterPlan(s, i, a, Stored);
    assert Enabled(c, s1, Plan(j, b, Stored));
    RunOfTwo(c, s, Plan(i, a, Stored), Plan(j, b, Stored));
  }

  const ONCE := Event(0, None, Active, true)

  function TwoExpansions(e: EventId): seq<Step> {
    [] + [Put(e, ONCE)] + [BeginOnce(0, e)] + [BeginOnce(1, e)] + [Ask(0, true)] + [Ask(1, true)]
  }

  /** A new event's own expansion and the next tick's can overlap so. */
  lemma OverlapIsReachable(c: Config, s0: State, e: EventId)
    requires Initial(s0) && s0.clock == 0 && c.gracePeriod >= 0 && c.lookAhead > 0
    ensures Run(c, s0, TwoExpansions(e))
    ensures var s := Final(c, s0, TwoExpansions(e));
            IsStoring(s, 0) && IsStoring(s, 1) && HeadKey(s, 0) == HeadKey(s, 1)
  {
    hide Run, Final;
    var s1 := AfterPut(c, s0, e, ONCE);
    var s2 := WithJob(s1, 0, Job(e, 0, [0], Asking));
    var s3 := WithJob(s2, 1, Job(e, 0, [0], Asking));
    var s4 := WithJob(s3, 0, Job(e, 0, [0], Storing));
    var s5 := WithJob(s4, 1, Job(e, 0, [0], Storing));
    NoSteps(c, s0);
    var r := [];
    Then(c, s0, r, Put(e, ONCE), s1);
    r := r + [Put(e, ONCE)];
    Then(c, s0, r, BeginOnce(0, e), s2);
    r := r + [BeginOnce(0, e)];
    Then(c, s0, r, BeginOnce(1, e), s3);
    r := r + [BeginOnce(1, e)];
    Then(c, s0, r, Ask(0, true), s4);
    r := r + [Ask(0, true)];
    Then(c, s0, r, Ask(1, true), s5);
  }
}
