/** With no new scheduling the pipeline empties, within a number of steps given by a measure summed
    over its items. */
module Draining {
  import opened Times
  import opened Tables
  import opened Redis
  import opened Pipeline
  import opened Conservation
  import opened Dispatching

  // ---------- sums over sets ----------

  ghost function Sum<K(!new)>(ks: set<K>, f: K -> nat): nat {
    if ks == {} then 0
    else
      var k :| k in ks;
      f(k) + Sum(ks - {k}, f)
  }

  lemma {:induction false} SumRemove<K(!new)>(ks: set<K>, k: K, f: K -> nat)
    requires k in ks
    ensures Sum(ks, f) == f(k) + Sum(ks - {k}, f)
    decreases ks
  {
    var x :| x in ks && Sum(ks, f) == f(x) + Sum(ks - {x}, f);
    if x != k {
      SumRemove(ks - {x}, k, f);
      SumRemove(ks - {k}, x, f);
      assert ks - {x} - {k} == ks - {k} - {x};
    }
  }

  lemma {:induction false} SumSame<K(!new)>(ks: set<K>, f: K -> nat, g: K -> nat)
    requires forall k :: k in ks ==> f(k) == g(k)
    ensures Sum(ks, f) == Sum(ks, g)
    decreases ks
  {
    if ks != {} {
      var k :| k in ks;
      SumRemove(ks, k, f);
      SumRemove(ks, k, g);
      SumSame(ks - {k}, f, g);
    }
  }

  // ---------- the measure ----------

  /** Steps an item can still take, counted from the queue: 8 per remaining attempt. */
  function Left(c: Config, attempt: nat): nat {
    if attempt < Bound(c) then 8 * (Bound(c) - attempt) else 0
  }

  function HandStage(h: Hand): nat {
    match h
    case Popped(_) => 1
    case Fetched(_, _) => 2
    case Executed(_, _, _) => 3
    case Logged(_, _, _) => 4
    case Deactivating(_, _) => 5
    case Returned(_, _) => 6
  }

  function HandWeight(c: Config, hands: map<nat, Hand>, w: nat): nat {
    if w in hands && Left(c, hands[w].item.attempt) >= 8
    then Left(c, hands[w].item.attempt) - HandStage(hands[w]) else 0
  }

  function QueueWeight(c: Config, queue: seq<Item>): nat {
    if queue == [] then 0
    else QueueWeight(c, queue[..|queue| - 1]) + Left(c, queue[|queue| - 1].attempt)
  }

  ghost function HandsWeight(c: Config, hands: map<nat, Hand>): nat {
    Sum(hands.Keys, w => HandWeight(c, hands, w))
  }

  ghost function RetryWeight(c: Config, retry: map<Item, int>): nat {
    Sum(retry.Keys, (it: Item) => Left(c, it.attempt) + 1)
  }

  function DataWeight(c: Config, data: map<Key, Item>): nat {
    (8 * Bound(c) + 1) * |data|
  }

  ghost function Measure(c: Config, s: State): nat {
    DataWeight(c, s.redis.data) + QueueWeight(c, s.redis.queue) +
    RetryWeight(c, s.redis.retry) + HandsWeight(c, s.hands)
  }

  // ---------- how its parts change ----------

  lemma HandOut(c: Config, hands: map<nat, Hand>, w: nat)
    requires w in hands
    ensures HandsWeight(c, hands) == HandWeight(c, hands, w) + HandsWeight(c, hands - {w})
  {
    var f := x => HandWeight(c, hands, x);
    var g := x => HandWeight(c, hands - {w}, x);
    SumRemove(hands.Keys, w, f);
    assert (hands - {w}).Keys == hands.Keys - {w};
    SumSame(hands.Keys - {w}, f, g);
  }

  lemma HandIn(c: Config, hands: map<nat, Hand>, w: nat, h: Hand)
    ensures HandsWeight(c, hands[w := h]) == HandWeight(c, map[w := h], w) + HandsWeight(c, hands - {w})
  {
    HandOut(c, hands[w := h], w);
    assert hands[w := h] - {w} == hands - {w};
  }

  /** Weight of a hand with an item that has attempts left. */
  lemma HandShare(c: Config, hands: map<nat, Hand>, w: nat)
    requires w in hands && hands[w].item.attempt < Bound(c)
    ensures Left(c, hands[w].item.attempt) >= 8
    ensures HandsWeight(c, hands) ==
            Left(c, hands[w].item.attempt) - HandStage(hands[w]) + HandsWeight(c, hands - {w})
  {
    HandOut(c, hands, w);
    hide HandsWeight;
  }

  lemma NewHand(c: Config, hands: map<nat, Hand>, w: nat, it: Item)
    requires w !in hands && it.attempt < Bound(c)
    ensures HandsWeight(c, hands[w := Popped(it)]) + 1 == Left(c, it.attempt) + HandsWeight(c, hands)
  {
    HandShare(c, hands[w := Popped(it)], w);
    assert hands[w := Popped(it)] - {w} == hands;
  }

  lemma QueueOut(c: Config, queue: seq<Item>)
    requires queue != []
    ensures QueueWeight(c, queue) ==
            QueueWeight(c, queue[..|queue| - 1]) + Left(c, queue[|queue| - 1].attempt)
  {
  }

  lemma RetryOut(c: Config, retry: map<Item, int>, it: Item)
    requires it in retry
    ensures RetryWeight(c, retry) == Left(c, it.attempt) + 1 + RetryWeight(c, retry - {it})
  {
    SumRemove(retry.Keys, it, (x: Item) => Left(c, x.attempt) + 1);
    assert (retry - {it}).Keys == retry.Keys - {it};
  }

  lemma RetryIn(c: Config, retry: map<Item, int>, it: Item, score: int)
    requires it !in retry
    ensures RetryWeight(c, retry[it := score]) == Left(c, it.attempt) + 1 + RetryWeight(c, retry)
  {
    RetryOut(c, retry[it := score], it);
    assert retry[it := score] - {it} == retry;
  }

  lemma QueueIn(c: Config, queue: seq<Item>, it: Item)
    ensures QueueWeight(c, queue + [it]) == QueueWeight(c, queue) + Left(c, it.attempt)
  {
    assert (queue + [it])[..|queue|] == queue;
  }

  lemma DataOut(c: Config, data: map<Key, Item>, k: Key)
    requires k in data
    ensures DataWeight(c, data) == 8 * Bound(c) + 1 + DataWeight(c, data - {k})
  {
  }

  // ---------- every pipeline step lowers the measure ----------

  /** Steps that carry occurrences on; the others are planning, editing and the clock. */
  predicate Carries(step: Step) {
    || step.Move? || step.Poll? || step.Pop? || step.Fetch? || step.Execute? || step.Log?
    || step.Decide? || step.Deactivate? || step.Settle? || step.Crash? || step.Unplan?
  }

  predicate Schedules(step: Step) {
    step.Plan?
  }

  lemma MoveLowers(c: Config, s: State, k: Key)
    requires AllOk(c, s) && Enabled(c, s, Move(k))
    ensures Measure(c, Apply(c, s, Move(k))) < Measure(c, s)
  {
    assert Ok(c, s, InHash(k));
    hide AllOk, Ok, DataWeight, QueueWeight, RetryWeight, HandsWeight;
    DataOut(c, s.redis.data, k);
    QueueIn(c, s.redis.queue, s.redis.data[k]);
  }

  lemma PollLowers(c: Config, s: State, it: Item)
    requires Enabled(c, s, Poll(it))
    ensures Measure(c, Apply(c, s, Poll(it))) < Measure(c, s)
  {
    hide DataWeight, QueueWeight, RetryWeight, HandsWeight;
    RetryOut(c, s.redis.retry, it);
    QueueIn(c, s.redis.queue, it);
  }

  lemma PopLowers(c: Config, s: State, w: nat)
    requires AllOk(c, s) && Enabled(c, s, Pop(w))
    ensures Measure(c, Apply(c, s, Pop(w))) < Measure(c, s)
  {
    var n := |s.redis.queue| - 1;
    assert Ok(c, s, InQueue(n));
    hide AllOk, Ok, DataWeight, QueueWeight, RetryWeight, HandsWeight, Left;
    QueueOut(c, s.redis.queue);
    NewHand(c, s.hands, w, s.redis.queue[n]);
  }

  /** A hand moves to a later stage. */
  lemma LaterStageLowers(c: Config, s: State, s': State, w: nat)
    requires AllOk(c, s) && w in s.hands && w in s'.hands && s'.hands == s.hands[w := s'.hands[w]]
    requires s'.hands[w].item == s.hands[w].item && HandStage(s'.hands[w]) > HandStage(s.hands[w])
    requires s'.redis.queue == s.redis.queue && s'.redis.retry == s.redis.retry
    requires DataWeight(c, s'.redis.data) <= DataWeight(c, s.redis.data)
    ensures Measure(c, s') < Measure(c, s)
  {
    assert Ok(c, s, InHand(w));
    hide AllOk, Ok, DataWeight, QueueWeight, RetryWeight, HandsWeight;
    HandOut(c, s.hands, w);
    HandIn(c, s.hands, w, s'.hands[w]);
  }

  lemma FetchLowers(c: Config, s: State, w: nat, read: Read)
    requires AllOk(c, s) && w in s.hands && s.hands[w].Popped?
    ensures Measure(c, AfterFetch(s, w, read)) < Measure(c, s)
  {
    hide AllOk, AfterFetch, KeyOf, Measure, DataWeight;
    FetchShape(s, w, read);
    FetchRedis(s, w, read);
    var k := KeyOf(s.hands[w].item);
    if k in s.redis.data {
      DataOut(c, s.redis.data, k);
    }
    LaterStageLowers(c, s, AfterFetch(s, w, read), w);
  }

  lemma WorkerLowers(c: Config, s: State, step: Step)
    requires AllOk(c, s) && Enabled(c, s, step)
    requires step.Execute? || step.Log? || step.Decide? || step.Deactivate?
    ensures Measure(c, Apply(c, s, step)) < Measure(c, s)
  {
    hide AllOk, Measure, DataWeight, ShouldDeactivate;
    LaterStageLowers(c, s, Apply(c, s, step), step.w);
  }

  lemma HandEndsLowers(c: Config, s: State, s': State, w: nat)
    requires AllOk(c, s) && w in s.hands && s'.hands == s.hands - {w} && s'.redis == s.redis
    ensures Measure(c, s') < Measure(c, s)
  {
    assert Ok(c, s, InHand(w));
    hide AllOk, Ok, DataWeight, QueueWeight, RetryWeight, HandsWeight;
    HandOut(c, s.hands, w);
  }

  function Again(it: Item): Item {
    it.(attempt := it.attempt + 1)
  }

  lemma RequeuedIsNew(s: State, w: nat)
    requires Conserved(s) && w in s.hands
    ensures Again(s.hands[w].item) !in s.redis.retry
  {
    var it := s.hands[w].item;
    assert At(s, it.id, InHand(w));
    assert !At(s, it.id, InRetry(Again(it)));
  }

  lemma RequeueLowers(c: Config, s: State, w: nat)
    requires AllOk(c, s) && Conserved(s) && w in s.hands && s.hands[w].Returned?
    requires !s.hands[w].ok && s.hands[w].item.attempt + 1 < c.maxRetries
    ensures Measure(c, AfterSettle(c, s, w, true)) < Measure(c, s)
  {
    hide AllOk, Conserved, DataWeight, QueueWeight, RetryWeight, HandsWeight;
    var it := s.hands[w].item;
    var score := Unix(s.clock + c.retryDelay);
    assert Left(c, Again(it).attempt) + 8 == Left(c, it.attempt);
    hide Left;
    RequeuedIsNew(s, w);
    HandShare(c, s.hands, w);
    RetryIn(c, s.redis.retry, Again(it), score);
    assert AfterSettle(c, s, w, true).redis == s.redis.(retry := s.redis.retry[Again(it) := score]);
  }

  lemma SettleLowers(c: Config, s: State, w: nat, requeued: bool)
    requires AllOk(c, s) && Conserved(s) && w in s.hands && s.hands[w].Returned?
    ensures Measure(c, AfterSettle(c, s, w, requeued)) < Measure(c, s)
  {
    hide AllOk, Conserved, Measure;
    if !s.hands[w].ok && s.hands[w].item.attempt + 1 < c.maxRetries && requeued {
      RequeueLowers(c, s, w);
    } else {
      HandEndsLowers(c, s, AfterSettle(c, s, w, requeued), w);
    }
  }

  lemma StepLowers(c: Config, s: State, step: Step)
    requires AllOk(c, s) && Conserved(s) && Enabled(c, s, step) && Carries(step)
    ensures Measure(c, Apply(c, s, step)) < Measure(c, s)
  {
    hide AllOk, Conserved, Measure;
    match step
    case Fetch(w, read) => FetchLowers(c, s, w, read);
    case Settle(w, requeued) => SettleLowers(c, s, w, requeued);
    case Crash(w) => HandEndsLowers(c, s, Apply(c, s, step), w);
    case Unplan(k) => UnplanLowers(c, s, k);
    case Move(k) => MoveLowers(c, s, k);
    case Poll(it) => PollLowers(c, s, it);
    case Pop(w) => PopLowers(c, s, w);
    case _ => WorkerLowers(c, s, step);
  }

  lemma UnplanLowers(c: Config, s: State, k: Key)
    requires k in s.redis.data
    ensures Measure(c, Forgotten(s, k)) < Measure(c, s)
  {
    DataOut(c, s.redis.data, k);
    hide DataWeight, QueueWeight, RetryWeight, HandsWeight;
  }

  lemma AsideKeepsMeasure(c: Config, s: State, step: Step)
    requires Enabled(c, s, step) && !Carries(step) && !Schedules(step)
    ensures Measure(c, Apply(c, s, step)) == Measure(c, s)
  {
    hide DataWeight, QueueWeight, RetryWeight, HandsWeight, PlanOf, Extended, AfterPut, KeptEvents, RecentRows;
  }

  function CarryingSteps(steps: seq<Step>): nat {
    if steps == [] then 0 else (if Carries(steps[0]) then 1 else 0) + CarryingSteps(steps[1..])
  }

  predicate NoScheduling(steps: seq<Step>) {
    forall step :: step in steps ==> !Schedules(step)
  }

  /** In a run without new scheduling the carrying steps are at most as many as the measure at its
      start, whatever happens to events, tables and the clock meanwhile. */
  lemma {:induction false} CarryingStepsAreBounded(c: Config, s: State, steps: seq<Step>)
    requires Inv(c, s) && Run(c, s, steps) && NoScheduling(steps)
    ensures Measure(c, Final(c, s, steps)) + CarryingSteps(steps) <= Measure(c, s)
    decreases |steps|
  {
    hide Enabled, Apply, Measure, Conserved, AllOk, Bounded, Scores, History;
    if steps != [] {
      assert steps[0] in steps && forall x :: x in steps[1..] ==> x in steps;
      StepKeepsInv(c, s, steps[0]);
      if Carries(steps[0]) {
        StepLowers(c, s, steps[0]);
      } else {
        AsideKeepsMeasure(c, s, steps[0]);
      }
      CarryingStepsAreBounded(c, Apply(c, s, steps[0]), steps[1..]);
    }
  }

  // ---------- progress ----------

  predicate IsEmpty(s: State) {
    s.redis.data == map[] && s.redis.queue == [] && s.redis.retry == map[] && s.hands == map[]
  }

  /** Keys the mover's range, which starts at score 0, can reach. */
  predicate Reachable(s: State) {
    forall k :: k in s.redis.data ==> k.second >= 0
  }

  /** The next step of the worker holding w. */
  function NextOf(h: Hand, w: nat): Step {
    match h
    case Popped(_) => Fetch(w, Answer(true))
    case Fetched(_, _) => Execute(w, true)
    case Executed(_, _, _) => Log(w, true)
    case Logged(_, _, _) => Decide(w, true)
    case Deactivating(_, _) => Deactivate(w, true)
    case Returned(_, _) => Settle(w, true)
  }

  lemma EntryIsScored(c: Config, s: State, k: Key)
    requires Inv(c, s) && k in s.redis.data
    ensures k in s.redis.schedules && s.redis.schedules[k] == k.second
  {
    assert Ok(c, s, InHash(k));
  }

  lemma NextIsEnabled(c: Config, s: State, w: nat)
    requires w in s.hands
    ensures Carries(NextOf(s.hands[w], w)) && Enabled(c, s, NextOf(s.hands[w], w))
    ensures !NextOf(s.hands[w], w).Crash? && !NextOf(s.hands[w], w).Unplan?
  {
  }

  lemma PollComesDue(c: Config, s: State, it: Item) returns (wait: Instant)
    requires it in s.redis.retry
    ensures wait >= s.clock && Enabled(c, s.(clock := wait), Poll(it))
  {
    wait := Max(s.clock, s.redis.retry[it] * NS);
    ReachSecond(s.redis.retry[it], wait);
  }

  lemma MoveComesDue(c: Config, s: State, k: Key) returns (wait: Instant)
    requires Inv(c, s) && k in s.redis.data && k.second >= 0
    ensures wait >= s.clock && Enabled(c, s.(clock := wait), Move(k))
  {
    EntryIsScored(c, s, k);
    hide Inv;
    wait := Max(s.clock, k.second * NS);
    ReachSecond(k.second, wait);
  }

  /** Some carrying step can be taken, after waiting if need be. */
  lemma Progress(c: Config, s: State) returns (wait: Instant, step: Step)
    requires Inv(c, s) && !IsEmpty(s) && Reachable(s)
    ensures wait >= s.clock && Carries(step) && !step.Crash? && !step.Unplan?
    ensures Enabled(c, s.(clock := wait), step)
  {
    hide Inv;
    wait := s.clock;
    if s.hands != map[] {
      var w :| w in s.hands;
      NextIsEnabled(c, s, w);
      step := NextOf(s.hands[w], w);
      assert s.(clock := s.clock) == s;
    } else if s.redis.queue != [] {
      step := Pop(0);
    } else if s.redis.retry != map[] {
      hide Enabled;
      var it :| it in s.redis.retry;
      wait := PollComesDue(c, s, it);
      step := Poll(it);
    } else {
      hide Enabled;
      var k :| k in s.redis.data;
      wait := MoveComesDue(c, s, k);
      step := Move(k);
    }
  }

  lemma ReachSecond(second: int, t: Instant)
    requires t >= second * NS
    ensures Unix(t) >= second
  {
  }

  lemma StepKeepsReachable(c: Config, s: State, step: Step)
    requires Reachable(s) && Enabled(c, s, step) && Carries(step)
    ensures Reachable(Apply(c, s, step))
  {
    hide AfterFetch, AfterLog, AfterDecide, AfterDeactivate, AfterSettle;
  }

  /** Left alone, the pipeline can always be run empty. */
  lemma {:induction false} CanDrain(c: Config, s: State) returns (steps: seq<Step>)
    requires Inv(c, s) && Reachable(s)
    ensures Run(c, s, steps) && NoScheduling(steps) && IsEmpty(Final(c, s, steps))
    decreases Measure(c, s)
  {
    hide Enabled, Apply, Measure, Inv, Reachable, IsEmpty;
    if IsEmpty(s) {
      return [];
    }
    var wait, step := Progress(c, s);
    var waited := s.(clock := wait);
    WaitIsStep(c, s, wait);
    StepKeepsInv(c, s, Advance(wait));
    AsideKeepsMeasure(c, s, Advance(wait));
    LowersInv(c, waited, step);
    StepKeepsInv(c, waited, step);
    WaitKeepsReachable(s, wait);
    StepKeepsReachable(c, waited, step);
    var rest := CanDrain(c, Apply(c, waited, step));
    steps := [Advance(wait), step] + rest;
    assert steps[1..] == [step] + rest && ([step] + rest)[1..] == rest;
    assert Run(c, waited, [step] + rest);
  }

  lemma WaitIsStep(c: Config, s: State, wait: Instant)
    requires wait >= s.clock
    ensures Enabled(c, s, Advance(wait)) && Apply(c, s, Advance(wait)) == s.(clock := wait)
  {
  }

  lemma WaitKeepsReachable(s: State, wait: Instant)
    requires Reachable(s)
    ensures Reachable(s.(clock := wait))
  {
  }

  lemma LowersInv(c: Config, s: State, step: Step)
    requires Inv(c, s) && Enabled(c, s, step) && Carries(step)
    ensures Measure(c, Apply(c, s, step)) < Measure(c, s)
  {
    hide Enabled, Apply, Measure;
    StepLowers(c, s, step);
  }

  /** An entry before 1970 is out of the mover's range for good: its score is negative. */
  lemma BeforeEpochIsStuck(c: Config, s: State, k: Key)
    requires Inv(c, s) && k in s.redis.data
    ensures (exists t :: t >= s.clock && Enabled(c, s.(clock := t), Move(k))) <==> k.second >= 0
  {
    assert Ok(c, s, InHash(k));
    if k.second >= 0 {
      var t := Max(s.clock, k.second * NS);
      ReachSecond(k.second, t);
      assert Enabled(c, s.(clock := t), Move(k));
    }
  }

  // ---------- leftovers of deleted events ----------

  predicate IsGone(s: State, e: EventId) {
    && e in s.created && e !in s.events
    && forall w :: w in s.hands && s.hands[w].item.event == e ==> !s.hands[w].Fetched?
  }

  /** Once e is deleted and no worker has its row in hand, no action of e is ever executed again,
      while its leftovers drain like any other item. */
  lemma GoneStaysGone(c: Config, s: State, step: Step, e: EventId)
    requires IsGone(s, e) && Enabled(c, s, step)
    ensures IsGone(Apply(c, s, step), e)
    ensures step.Execute? ==> s.hands[step.w].item.event != e
  {
    hide PlanOf, Extended, AfterLook, AfterAsk, AfterPlan, AfterSettle, AfterPut, Forgotten;
    hide RecentRows, HasRecentRow, Filter, ShouldDeactivate, Scheduled;
    match step
    case Fetch(w, read) => FetchKeepsGone(s, w, read, e);
    case Put(other, event) => PutKeepsGone(c, s, other, event, e);
    case _ =>
      if step.Pop? || step.Execute? || step.Log? || step.Decide? || step.Deactivate? || step.Settle? || step.Crash? {
        TurnKeepsGone(c, s, step, e);
      }
  }

  lemma TurnKeepsGone(c: Config, s: State, step: Step, e: EventId)
    requires IsGone(s, e) && Enabled(c, s, step)
    requires step.Pop? || step.Execute? || step.Log? || step.Decide? || step.Deactivate? || step.Settle? || step.Crash?
    ensures IsGone(Apply(c, s, step), e)
    ensures step.Execute? ==> s.hands[step.w].item.event != e
  {
    hide AfterSettle, ShouldDeactivate, Scheduled;
    HandKeepsGone(s, Apply(c, s, step), step.w, e);
  }

  /** One worker changes hands, and has no row of e in hand afterwards. */
  lemma HandKeepsGone(s: State, s': State, w: nat, e: EventId)
    requires IsGone(s, e) && s'.created == s.created && s'.events.Keys <= s.events.Keys
    requires forall x :: x != w && x in s'.hands ==> x in s.hands && s'.hands[x] == s.hands[x]
    requires w in s'.hands && s'.hands[w].item.event == e ==> !s'.hands[w].Fetched?
    ensures IsGone(s', e)
  {
  }

  lemma FetchKeepsGone(s: State, w: nat, read: Read, e: EventId)
    requires IsGone(s, e) && w in s.hands && s.hands[w].Popped?
    ensures IsGone(AfterFetch(s, w, read), e)
  {
    FetchShape(s, w, read);
    hide AfterFetch;
    HandKeepsGone(s, AfterFetch(s, w, read), w, e);
  }

  lemma PutKeepsGone(c: Config, s: State, other: EventId, event: Event, e: EventId)
    requires IsGone(s, e) && Enabled(c, s, Put(other, event))
    ensures IsGone(AfterPut(c, s, other, event), e)
  {
  }
}
