/** What every run knows about instants that were handed to the dispatch queue. */
module Handover {
  import opened Times
  import opened Tables
  import opened Redis
  import opened Pipeline
  import opened Conservation
  import opened Dispatching

  predicate WasMoved(s: State, it: Item) {
    (it.event, it.at) in s.moved
  }

  /** Everything past the hash, and every logged row, was handed over. */
  ghost predicate Handed(s: State) {
    && (forall it :: it in s.redis.queue ==> WasMoved(s, it))
    && (forall it :: it in s.redis.retry ==> WasMoved(s, it))
    && (forall w :: w in s.hands ==> WasMoved(s, s.hands[w].item))
    && (forall r :: r in s.rows ==> (r.event, r.at) in s.moved)
  }

  /** Nothing was handed over before its second. */
  ghost predicate OnTime(s: State) {
    forall m :: m in s.moved ==> Unix(m.1) <= Unix(s.clock)
  }

  /** Nothing refers to an event that was never created. */
  ghost predicate Known(s: State) {
    && s.events.Keys <= s.created && s.reached.Keys <= s.created
    && (forall j :: j in s.jobs ==> s.jobs[j].event in s.created)
    && (forall k :: k in s.redis.data ==> s.redis.data[k].event in s.created)
    && (forall m :: m in s.moved ==> m.0 in s.created)
  }

  lemma MoveKeepsHanded(c: Config, s: State, k: Key)
    requires Handed(s) && OnTime(s) && Known(s) && AllOk(c, s) && Scores(s) && Enabled(c, s, Move(k))
    ensures var s' := Apply(c, s, Move(k)); Handed(s') && OnTime(s') && Known(s')
  {
    assert Ok(c, s, InHash(k));
    hide AllOk, Ok;
  }

  lemma RowsKeepHanded(c: Config, s: State, s': State)
    requires Handed(s) && RowsChange(s, s') && s'.moved == s.moved
    ensures forall r :: r in s'.rows ==> (r.event, r.at) in s'.moved
  {
  }

  lemma StepKeepsOnTime(c: Config, s: State, step: Step)
    requires OnTime(s) && Enabled(c, s, step) && !step.Move?
    ensures OnTime(Apply(c, s, step)) && Apply(c, s, step).moved == s.moved
  {
    hide PlanOf, Extended, AfterLook, AfterAsk, AfterPlan, AfterPut, Forgotten;
    hide AfterFetch, AfterLog, AfterDecide, AfterDeactivate, AfterSettle;
    assert Unix(s.clock) <= Unix(Apply(c, s, step).clock);
  }

  lemma WorkerKeepsHanded(s: State, s': State, w: nat)
    requires Handed(s) && s'.moved == s.moved && s'.redis.queue == s.redis.queue
    requires w in s.hands && (s'.hands == s.hands - {w} ||
                              (w in s'.hands && s'.hands == s.hands[w := s'.hands[w]] &&
                               s'.hands[w].item == s.hands[w].item))
    requires forall it :: it in s'.redis.retry ==>
               it in s.redis.retry || it.(attempt := s.hands[w].item.attempt) == s.hands[w].item
    requires forall r :: r in s'.rows ==> (r.event, r.at) in s'.moved
    ensures Handed(s')
  {
    assert WasMoved(s, s.hands[w].item);
    assert forall it :: WasMoved(s', it) <==> WasMoved(s, it);
  }

  lemma RestKeepsHanded(s: State, s': State)
    requires Handed(s) && s'.moved == s.moved && s'.hands == s.hands
    requires s'.redis.queue == s.redis.queue && s'.redis.retry == s.redis.retry
    requires forall r :: r in s'.rows ==> (r.event, r.at) in s'.moved
    ensures Handed(s')
  {
    assert forall it :: WasMoved(s', it) <==> WasMoved(s, it);
  }

  lemma QueueKeepsHanded(c: Config, s: State, step: Step)
    requires Handed(s) && Enabled(c, s, step) && (step.Poll? || step.Pop?)
    ensures Handed(Apply(c, s, step))
  {
    var s' := Apply(c, s, step);
    assert forall it :: WasMoved(s', it) <==> WasMoved(s, it);
  }

  predicate IsWorkerStep(step: Step) {
    step.Fetch? || step.Execute? || step.Log? || step.Decide? || step.Deactivate? || step.Settle? || step.Crash?
  }

  lemma SettleKeepsHanded(c: Config, s: State, w: nat, requeued: bool)
    requires Handed(s) && w in s.hands && s.hands[w].Returned?
    ensures Handed(AfterSettle(c, s, w, requeued))
  {
    RowsWereMoved(s);
    SettleRetries(c, s, w, requeued);
    hide Handed, Unix, ScoresFrom, AfterSettle;
    WorkerKeepsHanded(s, AfterSettle(c, s, w, requeued), w);
  }

  lemma SettleRetries(c: Config, s: State, w: nat, requeued: bool)
    requires w in s.hands && s.hands[w].Returned?
    ensures var it := s.hands[w].item;
            AfterSettle(c, s, w, requeued).redis.retry.Keys <= s.redis.retry.Keys + {it.(attempt := it.attempt + 1)}
  {
    hide Unix, ScoresFrom, SameTables, Working;
    var it := s.hands[w].item;
    if !s.hands[w].ok && it.attempt + 1 < c.maxRetries && requeued {
      assert AfterSettle(c, s, w, requeued).redis == Requeued(c, s, it).redis;
    } else {
      assert AfterSettle(c, s, w, requeued).redis == s.redis;
    }
  }

  lemma RowsWereMoved(s: State)
    requires Handed(s)
    ensures forall r :: r in s.rows ==> (r.event, r.at) in s.moved
  {
  }

  lemma FetchKeepsHanded(s: State, w: nat, read: Read)
    requires Handed(s) && w in s.hands && s.hands[w].Popped?
    requires var s' := AfterFetch(s, w, read);
             s'.moved == s.moved && forall r :: r in s'.rows ==> (r.event, r.at) in s'.moved
    ensures Handed(AfterFetch(s, w, read))
  {
    FetchShape(s, w, read);
    FetchRedis(s, w, read);
    hide Handed, AfterFetch, Insert;
    WorkerKeepsHanded(s, AfterFetch(s, w, read), w);
  }

  lemma MiddleStepKeepsHanded(c: Config, s: State, step: Step)
    requires Handed(s) && Enabled(c, s, step)
    requires step.Execute? || step.Log? || step.Decide? || step.Deactivate? || step.Crash?
    requires var s' := Apply(c, s, step);
             s'.moved == s.moved && forall r :: r in s'.rows ==> (r.event, r.at) in s'.moved
    ensures Handed(Apply(c, s, step))
  {
    hide Handed, ShouldDeactivate, Insert, ScoresFrom;
    if step.Log? {
      InsertKeepsRest(s, RowOf(s.hands[step.w].item, s.hands[step.w].ok, s.hands[step.w].item.attempt + 1));
    }
    WorkerKeepsHanded(s, Apply(c, s, step), step.w);
  }

  lemma WorkerStepKeepsHanded(c: Config, s: State, step: Step)
    requires Handed(s) && Enabled(c, s, step) && IsWorkerStep(step)
    requires var s' := Apply(c, s, step);
             s'.moved == s.moved && forall r :: r in s'.rows ==> (r.event, r.at) in s'.moved
    ensures Handed(Apply(c, s, step))
  {
    hide Handed, AfterFetch, AfterSettle;
    if step.Fetch? {
      FetchKeepsHanded(s, step.w, step.read);
    } else if step.Settle? {
      SettleKeepsHanded(c, s, step.w, step.requeued);
    } else {
      hide Apply;
      MiddleStepKeepsHanded(c, s, step);
    }
  }

  lemma InsertKeepsRest(s: State, r: Row)
    ensures Insert(s, r).redis == s.redis && Insert(s, r).hands == s.hands
  {
  }

  lemma StepKeepsHanded(c: Config, s: State, step: Step)
    requires Handed(s) && OnTime(s) && Enabled(c, s, step) && !step.Move?
    ensures Handed(Apply(c, s, step))
  {
    hide Handed, OnTime;
    StepKeepsOnTime(c, s, step);
    StepChangesRows(c, s, step);
    var s' := Apply(c, s, step);
    RowsKeepHanded(c, s, s');
    if IsWorkerStep(step) {
      WorkerStepKeepsHanded(c, s, step);
    } else if step.Poll? || step.Pop? {
      QueueKeepsHanded(c, s, step);
    } else {
      hide PlanOf, Extended, AfterLook, AfterAsk, AfterPlan, AfterPut, Forgotten, RecentRows, Filter;
      RestKeepsHanded(s, s');
    }
  }

  lemma StepKeepsKnown(c: Config, s: State, step: Step)
    requires Known(s) && Enabled(c, s, step) && !step.Move?
    ensures Known(Apply(c, s, step))
  {
    hide Known, PlanOf, AfterLook, AfterAsk, AfterPlan, Forgotten, AfterPut, AfterFetch;
    match step
    case Plan(j, id, planned) => PlanKeepsKnown(s, j, id, planned);
    case Look(j, answered) => LookKeepsKnown(s, j, answered);
    case Ask(j, answered) => LookKeepsKnown(s, j, answered);
    case Put(e, event) => PutKeepsKnown(c, s, e, event);
    case Unplan(k) => UnplanKeepsKnown(s, k);
    case Fetch(w, read) => FetchKeepsKnown(s, w, read);
    case _ =>
      hide Apply;
      OthersKeepKnown(c, s, step);
  }

  lemma FetchKeepsKnown(s: State, w: nat, read: Read)
    requires Known(s) && w in s.hands && s.hands[w].Popped?
    ensures Known(AfterFetch(s, w, read))
  {
    hide AfterFetch, ScoresFrom;
    ShapeKeepsEvents(s, w, read);
  }

  lemma ShapeKeepsEvents(s: State, w: nat, read: Read)
    requires w in s.hands && s.hands[w].Popped?
    ensures AfterFetch(s, w, read).events == s.events
  {
    FetchShape(s, w, read);
    hide AfterFetch;
  }

  lemma OthersKeepKnown(c: Config, s: State, step: Step)
    requires Known(s) && Enabled(c, s, step)
    requires !step.Move? && !step.Plan? && !step.Look? && !step.Ask? && !step.Put? && !step.Unplan? && !step.Fetch?
    ensures Known(Apply(c, s, step))
  {
    hide PlanOf, ShouldDeactivate, RecentRows, Filter, HasRecentRow, ScoresFrom;
    hide AfterLog, AfterDecide, AfterDeactivate, AfterSettle;
  }

  lemma PlanKeepsKnown(s: State, j: nat, id: OccurrenceId, planned: Planned)
    requires Known(s) && HasHead(s, j)
    ensures Known(AfterPlan(s, j, id, planned))
  {
    hide KeyOf, Planning, SameTables;
  }

  lemma LookKeepsKnown(s: State, j: nat, answered: bool)
    requires Known(s) && HasHead(s, j)
    ensures Known(AfterLook(s, j, answered)) && Known(AfterAsk(s, j, answered))
  {
    hide ExistsAtTime, KeyFor;
  }

  lemma PutKeepsKnown(c: Config, s: State, e: EventId, event: Event)
    requires Known(s)
    ensures Known(AfterPut(c, s, e, event))
  {
    hide Known, ScoresFrom;
    CreatedStaysKnown(s, AfterPut(c, s, e, event), e);
  }

  lemma CreatedStaysKnown(s: State, s': State, e: EventId)
    requires Known(s) && s'.created == s.created + {e}
    requires s'.events.Keys <= s.events.Keys + {e} && s'.reached.Keys <= s.reached.Keys + {e}
    requires s'.jobs == s.jobs && s'.redis.data == s.redis.data && s'.moved == s.moved
    ensures Known(s')
  {
  }

  lemma UnplanKeepsKnown(s: State, k: Key)
    requires Known(s) && k in s.redis.data
    ensures Known(Forgotten(s, k))
  {
  }

  ghost predicate Traced(c: Config, s: State) {
    Inv(c, s) && Handed(s) && OnTime(s) && Known(s)
  }

  lemma StepKeepsTraced(c: Config, s: State, step: Step)
    requires Traced(c, s) && Enabled(c, s, step)
    ensures Traced(c, Apply(c, s, step))
  {
    hide Conserved, AllOk, Bounded, Scores, History, Handed, OnTime, Known, Apply, Enabled;
    StepKeepsInv(c, s, step);
    if step.Move? {
      MoveKeepsHanded(c, s, step.k);
    } else {
      StepKeepsOnTime(c, s, step);
      StepKeepsHanded(c, s, step);
      StepKeepsKnown(c, s, step);
    }
  }

  lemma {:induction false} RunKeepsTraced(c: Config, s: State, steps: seq<Step>)
    requires Traced(c, s) && Run(c, s, steps)
    ensures Traced(c, Final(c, s, steps))
    decreases |steps|
  {
    hide Enabled, Apply, Traced;
    if steps != [] {
      StepKeepsTraced(c, s, steps[0]);
      RunKeepsTraced(c, Apply(c, s, steps[0]), steps[1..]);
    }
  }
}
