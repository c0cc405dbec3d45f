/** When an instant is handed to the dispatch queue more than once: exactly when it is written to the
    hash again after it has been handed over. */
module Repeats {
  import opened Times
  import opened Recurrence
  import opened Tables
  import opened Redis
  import opened Pipeline
  import opened Conservation
  import opened Dispatching
  import opened Handover

  /** No instant of e has been handed over twice, and none that has been is pending again. */
  ghost predicate Once(s: State, e: EventId) {
    && (forall t :: s.moved[(e, t)] <= 1)
    && (forall k :: k in s.redis.data && s.redis.data[k].event == e ==> s.moved[(e, s.redis.data[k].at)] == 0)
  }

  /** The step does not write an instant of e that has been handed over. */
  predicate IsFresh(s: State, step: Step, e: EventId) {
    step.Plan? && step.planned.Stored? && HasHead(s, step.j) && s.jobs[step.j].event == e ==>
      s.moved[(e, s.jobs[step.j].todo[0])] == 0
  }

  lemma MoveKeepsOnce(c: Config, s: State, k: Key, e: EventId)
    requires Once(s, e) && AllOk(c, s) && Enabled(c, s, Move(k))
    ensures Once(Apply(c, s, Move(k)), e)
  {
    assert Ok(c, s, InHash(k));
    forall x | x in s.redis.data
      ensures x == KeyOf(s.redis.data[x])
    {
      assert Ok(c, s, InHash(x));
    }
    hide AllOk, Ok;
  }

  lemma PlanKeepsOnceIff(s: State, j: nat, id: OccurrenceId, planned: Planned, e: EventId)
    requires Once(s, e) && HasHead(s, j)
    ensures Once(AfterPlan(s, j, id, planned), e) <==> IsFresh(s, Plan(j, id, planned), e)
  {
    hide Planning, SameTables, KeyFor;
    var k := KeyFor(s.jobs[j].event, s.jobs[j].todo[0]);
    var s' := AfterPlan(s, j, id, planned);
    assert planned.Stored? ==> k in s'.redis.data && s'.redis.data[k] == HeadItem(s, j, id);
  }

  /** Steps that neither plan nor move. */
  lemma FewerEntriesKeepOnce(s: State, s': State, e: EventId)
    requires Once(s, e) && s'.moved == s.moved
    requires forall k :: k in s'.redis.data && s'.redis.data[k].event == e ==>
               k in s.redis.data && s.redis.data[k] == s'.redis.data[k]
    ensures Once(s', e)
  {
  }

  lemma PutKeepsOnce(c: Config, s: State, other: EventId, event: Event, e: EventId)
    requires Once(s, e)
    ensures Once(AfterPut(c, s, other, event), e)
  {
  }

  lemma OthersKeepOnce(c: Config, s: State, step: Step, e: EventId)
    requires Once(s, e) && Enabled(c, s, step)
    requires !step.Move? && !step.Plan? && !step.Put?
    ensures Once(Apply(c, s, step), e)
  {
    hide Once, PlanOf, Extended, KeptEvents, RecentRows, Filter, SameTables, ScoresFrom;
    hide AfterFetch, AfterLog, AfterDecide, AfterDeactivate, AfterSettle, AfterLook, AfterAsk;
    FewerEntriesKeepOnce(s, Apply(c, s, step), e);
  }

  /** The exact condition, step by step. */
  lemma StepKeepsOnceIff(c: Config, s: State, step: Step, e: EventId)
    requires Once(s, e) && AllOk(c, s) && Enabled(c, s, step)
    ensures Once(Apply(c, s, step), e) <==> IsFresh(s, step, e)
  {
    hide Once, AllOk, PlanOf, AfterPlan, AfterPut;
    match step
    case Move(k) => MoveKeepsOnce(c, s, k, e);
    case Plan(j, id, planned) => PlanKeepsOnceIff(s, j, id, planned, e);
    case Put(other, event) => PutKeepsOnce(c, s, other, event, e);
    case _ => OthersKeepOnce(c, s, step, e);
  }

  // ---------- over whole runs ----------

  predicate FreshRun(c: Config, s: State, steps: seq<Step>, e: EventId)
    decreases |steps|
  {
    steps == [] ||
    (Enabled(c, s, steps[0]) && IsFresh(s, steps[0], e) && FreshRun(c, Apply(c, s, steps[0]), steps[1..], e))
  }

  ghost predicate OnceThroughout(c: Config, s: State, steps: seq<Step>, e: EventId)
    requires Run(c, s, steps)
    decreases |steps|
  {
    Once(s, e) && (steps != [] ==> OnceThroughout(c, Apply(c, s, steps[0]), steps[1..], e))
  }

  lemma {:induction false} FreshRunKeepsOnce(c: Config, s: State, steps: seq<Step>, e: EventId)
    requires Inv(c, s) && Once(s, e) && FreshRun(c, s, steps, e)
    ensures Run(c, s, steps) && Once(Final(c, s, steps), e) && OnceThroughout(c, s, steps, e)
    decreases |steps|
  {
    hide Enabled, Apply, IsFresh, Once, Conserved, AllOk, Bounded, Scores, History;
    if steps != [] {
      StepKeepsInv(c, s, steps[0]);
      StepKeepsOnceIff(c, s, steps[0], e);
      FreshRunKeepsOnce(c, Apply(c, s, steps[0]), steps[1..], e);
    }
  }

  lemma {:induction false} OnceThroughoutIsFresh(c: Config, s: State, steps: seq<Step>, e: EventId)
    requires Inv(c, s) && Run(c, s, steps) && OnceThroughout(c, s, steps, e)
    ensures FreshRun(c, s, steps, e)
    decreases |steps|
  {
    hide Enabled, Apply, IsFresh, Once, Conserved, AllOk, Bounded, Scores, History;
    if steps != [] {
      StepKeepsInv(c, s, steps[0]);
      StepKeepsOnceIff(c, s, steps[0], e);
      OnceThroughoutIsFresh(c, Apply(c, s, steps[0]), steps[1..], e);
    }
  }

  /** In every run from the empty system, no instant of e is handed over, or about to be handed over, a
      second time at any point if and only if no write to the hash is of an instant handed over. */
  lemma MovedOnceIff(c: Config, s0: State, steps: seq<Step>, e: EventId)
    requires Initial(s0) && Run(c, s0, steps)
    ensures OnceThroughout(c, s0, steps, e) <==> FreshRun(c, s0, steps, e)
  {
    InitialInv(c, s0);
    assert Once(s0, e);
    hide Initial, Inv, Once;
    if FreshRun(c, s0, steps, e) {
      FreshRunKeepsOnce(c, s0, steps, e);
    } else if OnceThroughout(c, s0, steps, e) {
      OnceThroughoutIsFresh(c, s0, steps, e);
    }
  }

  // ---------- a guard that the caller can check ----------

  /** e is written before its instant is due. */
  predicate IsEarly(s: State, step: Step, e: EventId) {
    step.Plan? && step.planned.Stored? && HasHead(s, step.j) && s.jobs[step.j].event == e ==>
      Unix(s.clock) < Unix(s.jobs[step.j].todo[0])
  }

  predicate EarlyRun(c: Config, s: State, steps: seq<Step>, e: EventId)
    decreases |steps|
  {
    steps == [] ||
    (Enabled(c, s, steps[0]) && IsEarly(s, steps[0], e) && EarlyRun(c, Apply(c, s, steps[0]), steps[1..], e))
  }

  lemma EarlyIsFresh(s: State, step: Step, e: EventId)
    requires OnTime(s) && IsEarly(s, step, e)
    ensures IsFresh(s, step, e)
  {
    if step.Plan? && HasHead(s, step.j) {
      var m := (s.jobs[step.j].event, s.jobs[step.j].todo[0]);
      assert m in s.moved ==> Unix(m.1) <= Unix(s.clock);
    }
  }

  lemma {:induction false} EarlyRunIsFresh(c: Config, s: State, steps: seq<Step>, e: EventId)
    requires Traced(c, s) && EarlyRun(c, s, steps, e)
    ensures FreshRun(c, s, steps, e)
    decreases |steps|
  {
    hide Enabled, Apply, IsEarly, IsFresh, Inv, Handed, OnTime, Known;
    if steps != [] {
      EarlyIsFresh(s, steps[0], e);
      StepKeepsTraced(c, s, steps[0]);
      EarlyRunIsFresh(c, Apply(c, s, steps[0]), steps[1..], e);
    }
  }

  /** Without any look at the log, for one-time and recurring events alike: while every write of e's
      entries comes before its instant's second, each instant is handed over at most once. An expansion
      that finds its key in the hash writes nothing. */
  lemma EarlyWritesMoveOnce(c: Config, s0: State, steps: seq<Step>, e: EventId, t: Instant)
    requires Initial(s0) && EarlyRun(c, s0, steps, e)
    ensures Run(c, s0, steps) && Final(c, s0, steps).moved[(e, t)] <= 1
  {
    InitialInv(c, s0);
    assert Traced(c, s0);
    assert Once(s0, e);
    hide Initial, Inv;
    EarlyRunIsFresh(c, s0, steps, e);
    FreshRunKeepsOnce(c, s0, steps, e);
  }
}
