/** ScheduleEvent split into its three Redis calls, each of which may fail and be retried, with the
    due mover interleaved. */
module HalfWrites {
  import opened Times
  import opened Tables
  import opened Redis

  /** How often scheduleWithRetry calls ScheduleEvent. */
  const TRIES := 3

  /** A call of scheduleWithRetry: before HEXISTS, after HEXISTS answered no, after ZADD. */
  datatype Writer =
    | Asking(item: Item, left: nat)
    | Adding(item: Item, left: nat)
    | Setting(item: Item, left: nat)

  /** torn is history: the keys with a ZADD that no HSET has completed. */
  datatype State = State(redis: Store, writers: map<nat, Writer>, torn: set<Key>)

  /** How a Redis call ends: it answers, or has no effect and is retried or given up. */
  datatype Outcome = Answered | Timeout | Refused

  datatype Step =
    | Start(w: nat, item: Item)
    | HExists(w: nat, outcome: Outcome)
    | ZAdd(w: nat, outcome: Outcome)
    | HSet(w: nat, outcome: Outcome)
    | Move(k: Key, now: int)
    // RemoveEventOccurrencesFromRedis, which looks at the hash, and the dispatcher's clean-up, which does not
    | Drop(k: Key)
    | Erase(k: Key)

  predicate Enabled(s: State, step: Step) {
    match step
    case Start(w, it) => w !in s.writers
    case HExists(w, _) => w in s.writers && s.writers[w].Asking?
    case ZAdd(w, _) => w in s.writers && s.writers[w].Adding?
    case HSet(w, _) => w in s.writers && s.writers[w].Setting?
    case Move(k, now) => k in s.redis.schedules && 0 <= s.redis.schedules[k] <= now
    case Drop(k) => k in s.redis.schedules && k in s.redis.data
    case Erase(_) => true
  }

  /** scheduleWithRetry: up to three calls, only after timeouts and connection errors. */
  function AfterError(s: State, w: nat, outcome: Outcome): State
    requires w in s.writers
  {
    if outcome.Timeout? && s.writers[w].left > 1
    then s.(writers := s.writers[w := Asking(s.writers[w].item, s.writers[w].left - 1)])
    else s.(writers := s.writers - {w})
  }

  function Apply(s: State, step: Step): State
    requires Enabled(s, step)
  {
    match step
    case Start(w, it) => s.(writers := s.writers[w := Asking(it, TRIES)])
    case HExists(w, outcome) =>
      var it := s.writers[w].item;
      if !outcome.Answered? then AfterError(s, w, outcome)
      else if KeyOf(it) in s.redis.data then s.(writers := s.writers - {w})
      else s.(writers := s.writers[w := Adding(it, s.writers[w].left)])
    case ZAdd(w, outcome) =>
      var it := s.writers[w].item;
      var k := KeyOf(it);
      if !outcome.Answered? then AfterError(s, w, outcome)
      else s.(redis := s.redis.(schedules := s.redis.schedules[k := Unix(it.at)]),
              writers := s.writers[w := Setting(it, s.writers[w].left)],
              torn := s.torn + {k})
    case HSet(w, outcome) =>
      var it := s.writers[w].item;
      var k := KeyOf(it);
      if !outcome.Answered? then AfterError(s, w, outcome)
      else s.(redis := s.redis.(data := s.redis.data[k := it]), writers := s.writers - {w}, torn := s.torn - {k})
    case Move(k, _) => s.(redis := Moved(s.redis, k))
    case Drop(k) => s.(redis := Removed(s.redis, k))
    case Erase(k) => s.(redis := Removed(s.redis, k), torn := s.torn - {k})
  }

  /** Calls in progress are on different keys, and no clean-up falls between a ZADD and its HSET. */
  predicate Apart(s: State, step: Step) {
    && (step.Start? ==> forall w :: w in s.writers ==> KeyOf(s.writers[w].item) != KeyOf(step.item))
    && (step.Erase? ==> forall w :: w in s.writers && s.writers[w].Setting? ==> KeyOf(s.writers[w].item) != step.k)
  }

  ghost predicate Sound(s: State) {
    && s.redis.data.Keys <= s.redis.schedules.Keys
    && s.torn == s.redis.schedules.Keys - s.redis.data.Keys
    && (forall k :: k in s.redis.schedules ==> s.redis.schedules[k] == k.second)
    && (forall k :: k in s.redis.data ==> KeyOf(s.redis.data[k]) == k)
    && (forall v, w ::
          v in s.writers && w in s.writers && KeyOf(s.writers[v].item) == KeyOf(s.writers[w].item) ==> v == w)
    && (forall w :: w in s.writers && !s.writers[w].Asking? ==> KeyOf(s.writers[w].item) !in s.redis.data)
    && (forall w :: w in s.writers && s.writers[w].Setting? ==> KeyOf(s.writers[w].item) in s.torn)
  }

  lemma StartKeepsSound(s: State, w: nat, it: Item)
    requires Sound(s) && Enabled(s, Start(w, it)) && Apart(s, Start(w, it))
    ensures Sound(Apply(s, Start(w, it)))
  {
    hide KeyOf;
  }

  /** A failed call ends, or starts again at HEXISTS. */
  lemma ErrorKeepsSound(s: State, w: nat, outcome: Outcome)
    requires Sound(s) && w in s.writers
    ensures Sound(AfterError(s, w, outcome))
  {
    hide KeyOf;
  }

  lemma HExistsKeepsSound(s: State, w: nat, outcome: Outcome)
    requires Sound(s) && Enabled(s, HExists(w, outcome))
    ensures Sound(Apply(s, HExists(w, outcome)))
  {
    ErrorKeepsSound(s, w, outcome);
    hide KeyOf, AfterError;
  }

  lemma ZAddKeepsSound(s: State, w: nat, outcome: Outcome)
    requires Sound(s) && Enabled(s, ZAdd(w, outcome))
    ensures Sound(Apply(s, ZAdd(w, outcome)))
  {
    ErrorKeepsSound(s, w, outcome);
    hide AfterError, Unix;
  }

  lemma HSetKeepsSound(s: State, w: nat, outcome: Outcome)
    requires Sound(s) && Enabled(s, HSet(w, outcome))
    ensures Sound(Apply(s, HSet(w, outcome)))
  {
    ErrorKeepsSound(s, w, outcome);
    hide AfterError, KeyOf;
  }

  lemma MoveKeepsSound(s: State, k: Key, now: int)
    requires Sound(s) && Enabled(s, Move(k, now))
    ensures Sound(Apply(s, Move(k, now)))
  {
    hide KeyOf;
  }

  lemma RemovalKeepsSound(s: State, step: Step)
    requires Sound(s) && Enabled(s, step) && Apart(s, step) && (step.Drop? || step.Erase?)
    ensures Sound(Apply(s, step))
  {
    hide KeyOf;
  }

  lemma StepKeepsSound(s: State, step: Step)
    requires Sound(s) && Enabled(s, step) && Apart(s, step)
    ensures Sound(Apply(s, step))
  {
    hide Sound, Apply;
    match step
    case Start(w, it) => StartKeepsSound(s, w, it);
    case HExists(w, outcome) => HExistsKeepsSound(s, w, outcome);
    case ZAdd(w, outcome) => ZAddKeepsSound(s, w, outcome);
    case HSet(w, outcome) => HSetKeepsSound(s, w, outcome);
    case Move(k, now) => MoveKeepsSound(s, k, now);
    case Drop(_) => RemovalKeepsSound(s, step);
    case Erase(_) => RemovalKeepsSound(s, step);
  }

  predicate Run(s: State, steps: seq<Step>)
    decreases |steps|
  {
    steps == [] || (Enabled(s, steps[0]) && Run(Apply(s, steps[0]), steps[1..]))
  }

  predicate ApartRun(s: State, steps: seq<Step>)
    decreases |steps|
  {
    steps == [] ||
    (Enabled(s, steps[0]) && Apart(s, steps[0]) && ApartRun(Apply(s, steps[0]), steps[1..]))
  }

  function Final(s: State, steps: seq<Step>): State
    requires Run(s, steps)
    decreases |steps|
  {
    if steps == [] then s else Final(Apply(s, steps[0]), steps[1..])
  }

  /** Along every run of calls on different keys, failing anywhere and retried: the hash stays inside
      the sorted set, scores are the seconds of their keys, and the keys without data are exactly
      the half-written ones. */
  lemma {:induction false} RunKeepsSound(s: State, steps: seq<Step>)
    requires Sound(s) && ApartRun(s, steps)
    ensures Run(s, steps) && Sound(Final(s, steps))
    decreases |steps|
  {
    hide Enabled, Apply, Apart, Sound;
    if steps != [] {
      StepKeepsSound(s, steps[0]);
      RunKeepsSound(Apply(s, steps[0]), steps[1..]);
    }
  }

  /** The mover changes nothing for a half-written key, however long it has been due. */
  lemma MoverLeavesHalfWritten(s: State, k: Key, now: int)
    requires Sound(s) && Enabled(s, Move(k, now))
    ensures k in s.torn <==> Apply(s, Move(k, now)) == s
    ensures k !in s.torn ==> Apply(s, Move(k, now)).redis.queue == s.redis.queue + [s.redis.data[k]]
  {
  }

  /** A later complete call on a half-written key repairs it. */
  lemma RepairCompletes(s: State, w: nat, it: Item)
    requires Sound(s) && KeyOf(it) in s.torn && w !in s.writers
    requires forall v :: v in s.writers ==> KeyOf(s.writers[v].item) != KeyOf(it)
    ensures var s1 := Apply(s, Start(w, it));
            var s2 := Apply(s1, HExists(w, Answered));
            s2.writers[w].Adding? &&
            var s3 := Apply(s2, ZAdd(w, Answered));
            var s4 := Apply(s3, HSet(w, Answered));
            && s4.redis.data == s.redis.data[KeyOf(it) := it]
            && s4.redis.schedules == s.redis.schedules
            && s4.torn == s.torn - {KeyOf(it)}
  {
  }

  // ---------- any number of calls, on any keys ----------

  /** Every entry of the hash can still be found through the sorted set. */
  predicate IsInside(s: State) {
    s.redis.data.Keys <= s.redis.schedules.Keys
  }

  /** The step is not an HSET whose score is gone: moved, removed or cleaned up since the ZADD. */
  predicate FindsScore(s: State, step: Step) {
    step.HSet? && step.outcome.Answered? && step.w in s.writers ==>
      KeyOf(s.writers[step.w].item) in s.redis.schedules
  }

  /** The exact condition, step by step, for any number of writers on any keys. */
  lemma StepKeepsInsideIff(s: State, step: Step)
    requires IsInside(s) && Enabled(s, step)
    ensures IsInside(Apply(s, step)) <==> FindsScore(s, step)
  {
    hide KeyOf;
    if step.HSet? && step.outcome.Answered? {
      assert KeyOf(s.writers[step.w].item) in Apply(s, step).redis.data;
    }
  }

  predicate FindingRun(s: State, steps: seq<Step>)
    decreases |steps|
  {
    steps == [] ||
    (Enabled(s, steps[0]) && FindsScore(s, steps[0]) && FindingRun(Apply(s, steps[0]), steps[1..]))
  }

  predicate InsideThroughout(s: State, steps: seq<Step>)
    requires Run(s, steps)
    decreases |steps|
  {
    IsInside(s) && (steps != [] ==> InsideThroughout(Apply(s, steps[0]), steps[1..]))
  }

  /** Throughout a run the hash stays inside the sorted set if and only if no answered HSET finds its score
      gone. */
  lemma {:induction false} InsideThroughoutIff(s: State, steps: seq<Step>)
    requires IsInside(s) && Run(s, steps)
    ensures InsideThroughout(s, steps) <==> FindingRun(s, steps)
    decreases |steps|
  {
    hide Enabled, Apply, IsInside, FindsScore;
    if steps != [] {
      StepKeepsInsideIff(s, steps[0]);
      if IsInside(Apply(s, steps[0])) {
        InsideThroughoutIff(Apply(s, steps[0]), steps[1..]);
      } else {
        assert !InsideThroughout(Apply(s, steps[0]), steps[1..]);
      }
    }
  }

  /** The dispatcher's clean-up between one call's ZADD and HSET strands its entry, without a second call. */
  lemma CleanUpStrandsAnEntry(s: State, w: nat)
    requires w in s.writers && s.writers[w].Setting?
    ensures var k := KeyOf(s.writers[w].item);
            var s' := Apply(Apply(s, Erase(k)), HSet(w, Answered));
            k in s'.redis.data && k !in s'.redis.schedules && !FindsScore(Apply(s, Erase(k)), HSet(w, Answered))
  {
    hide KeyOf;
  }

  // ---------- two calls on one key ----------

  lemma RunCons(s: State, step: Step, rest: seq<Step>)
    requires Enabled(s, step) && Run(Apply(s, step), rest)
    ensures Run(s, [step] + rest) && Final(s, [step] + rest) == Final(Apply(s, step), rest)
  {
    assert ([step] + rest)[1..] == rest;
  }

  function Empty(): State {
    State(Store(map[], map[], [], map[]), map[], {})
  }

  /** The state once both calls have had their HEXISTS answered and written their score. */
  function BothScored(a: Item, b: Item): State {
    var k := KeyOf(a);
    State(Store(map[k := k.second], map[], [], map[]), map[0 := Setting(a, TRIES), 1 := Setting(b, TRIES)], {k})
  }

  lemma SecondHalf(a: Item, b: Item)
    requires KeyOf(a) == KeyOf(b) && Unix(a.at) >= 0
    ensures var s := BothScored(a, b);
            var steps := [HSet(0, Answered), Move(KeyOf(a), Unix(a.at)), HSet(1, Answered)];
            Run(s, steps) &&
            KeyOf(a) in Final(s, steps).redis.data && KeyOf(a) !in Final(s, steps).redis.schedules &&
            a in Final(s, steps).redis.queue
  {
    var k := KeyOf(a);
    var s := BothScored(a, b);
    var s1 := Apply(s, HSet(0, Answered));
    var s2 := Apply(s1, Move(k, Unix(a.at)));
    var s3 := Apply(s2, HSet(1, Answered));
    RunCons(s2, HSet(1, Answered), []);
    RunCons(s1, Move(k, Unix(a.at)), [HSet(1, Answered)]);
    RunCons(s, HSet(0, Answered), [Move(k, Unix(a.at)), HSet(1, Answered)]);
    assert [Move(k, Unix(a.at))] + [HSet(1, Answered)] == [Move(k, Unix(a.at)), HSet(1, Answered)];
    assert [HSet(0, Answered)] + [Move(k, Unix(a.at)), HSet(1, Answered)] ==
           [HSet(0, Answered), Move(k, Unix(a.at)), HSet(1, Answered)];
  }

  /** A step whose effect is known, before a run that starts there. */
  lemma Before(s: State, step: Step, next: State, rest: seq<Step>, last: State)
    requires Enabled(s, step) && Apply(s, step) == next
    requires Run(next, rest) && Final(next, rest) == last
    ensures Run(s, [step] + rest) && Final(s, [step] + rest) == last
  {
    RunCons(s, step, rest);
  }

  /** Two calls on one key whose HEXISTS are both answered before either writes, with the mover
      between their HSETs. */
  function Race(a: Item, b: Item): seq<Step> {
    [Start(0, a)] + ([Start(1, b)] + ([HExists(0, Answered)] + ([HExists(1, Answered)] +
    ([ZAdd(0, Answered)] + ([ZAdd(1, Answered)] +
    [HSet(0, Answered), Move(KeyOf(a), Unix(a.at)), HSet(1, Answered)])))))
  }

  /** Without the discipline the hash leaves the sorted set: the race strands an entry that no mover
      takes, and because its hash entry exists every later call on the key is refused. */
  lemma TwoWritersStrandAnEntry(a: Item, b: Item)
    requires KeyOf(a) == KeyOf(b) && Unix(a.at) >= 0
    ensures Run(Empty(), Race(a, b))
    ensures var s := Final(Empty(), Race(a, b));
            KeyOf(a) in s.redis.data && KeyOf(a) !in s.redis.schedules && a in s.redis.queue
  {
    hide Run, Final;
    var s0, s6 := Empty(), BothScored(a, b);
    var s1 := s0.(writers := map[0 := Asking(a, TRIES)]);
    var s2 := s0.(writers := map[0 := Asking(a, TRIES), 1 := Asking(b, TRIES)]);
    var s3 := s0.(writers := map[0 := Adding(a, TRIES), 1 := Asking(b, TRIES)]);
    var s4 := s0.(writers := map[0 := Adding(a, TRIES), 1 := Adding(b, TRIES)]);
    var s5 := s6.(writers := map[0 := Setting(a, TRIES), 1 := Adding(b, TRIES)]);
    var r6 := [HSet(0, Answered), Move(KeyOf(a), Unix(a.at)), HSet(1, Answered)];
    SecondHalf(a, b);
    var last := Final(s6, r6);
    var r5 := [ZAdd(1, Answered)] + r6;
    Before(s5, ZAdd(1, Answered), s6, r6, last);
    var r4 := [ZAdd(0, Answered)] + r5;
    Before(s4, ZAdd(0, Answered), s5, r5, last);
    var r3 := [HExists(1, Answered)] + r4;
    Before(s3, HExists(1, Answered), s4, r4, last);
    var r2 := [HExists(0, Answered)] + r3;
    Before(s2, HExists(0, Answered), s3, r3, last);
    Before(s1, Start(1, b), s2, r2, last);
    Before(s0, Start(0, a), s1, [Start(1, b)] + r2, last);
  }

  // ---------- how often a call is tried ----------

  /** The step is a failing Redis call of w. */
  predicate Fails(step: Step, w: nat) {
    (step.HExists? || step.ZAdd? || step.HSet?) && step.w == w && !step.outcome.Answered?
  }

  /** The timeouts of w since its call began, n of them before these steps. */
  function Timeouts(steps: seq<Step>, w: nat, n: nat): nat
    decreases |steps|
  {
    if steps == [] then n
    else if steps[0].Start? && steps[0].w == w then Timeouts(steps[1..], w, 0)
    else Timeouts(steps[1..], w, if Fails(steps[0], w) && steps[0].outcome.Timeout? then n + 1 else n)
  }

  lemma StepCounts(s: State, step: Step, w: nat, n: nat)
    requires Enabled(s, step) && (w in s.writers ==> s.writers[w].left + n == 3 && n < 3)
    ensures var m := Timeouts([step], w, n);
            w in Apply(s, step).writers ==> Apply(s, step).writers[w].left + m == 3 && m < 3
  {
    hide KeyOf;
    assert Timeouts([step][1..], w, n) == n;
  }

  lemma TimeoutsInTurn(steps: seq<Step>, w: nat, n: nat)
    requires steps != []
    ensures Timeouts(steps, w, n) == Timeouts(steps[1..], w, Timeouts([steps[0]], w, n))
  {
    assert [steps[0]][1..] == [];
    assert forall m: nat :: Timeouts([], w, m) == m;
  }

  lemma {:induction false} CallsAreCounted(s: State, steps: seq<Step>, w: nat, n: nat)
    requires Run(s, steps) && (w in s.writers ==> s.writers[w].left + n == 3 && n < 3)
    ensures var s', m := Final(s, steps), Timeouts(steps, w, n);
            w in s'.writers ==> s'.writers[w].left + m == 3 && m < 3
    decreases |steps|
  {
    if steps != [] {
      StepCounts(s, steps[0], w, n);
      TimeoutsInTurn(steps, w, n);
      hide Apply, Enabled, Timeouts;
      CallsAreCounted(Apply(s, steps[0]), steps[1..], w, Timeouts([steps[0]], w, n));
    }
  }

  /** In every run that begins without calls in progress, a failing Redis call starts over at HEXISTS if and
      only if it is a timeout and fewer than two came before it; the third timeout, and any other error,
      gives the instant up. */
  lemma ThirdTimeoutGivesUp(s: State, steps: seq<Step>, w: nat, step: Step)
    requires s.writers == map[] && Run(s, steps) && Enabled(Final(s, steps), step) && Fails(step, w)
    ensures var before, after := Final(s, steps), Apply(Final(s, steps), step);
            && (w in after.writers <==> step.outcome.Timeout? && Timeouts(steps, w, 0) < 2)
            && (w in after.writers ==> after.writers[w].Asking? && after.writers[w].item == before.writers[w].item)
            && after.redis == before.redis
  {
    CallsAreCounted(s, steps, w, 0);
    hide Run, Final, Timeouts, KeyOf;
  }
}
