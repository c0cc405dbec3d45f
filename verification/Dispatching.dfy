/** Attempts, attempt history and timing: what is known of every live occurrence, in every run. */
module Dispatching {
  import opened Times
  import opened Tables
  import opened Redis
  import opened Pipeline
  import opened Conservation

  /** The most attempts an occurrence can get: maxRetries, but never none. */
  function Bound(c: Config): int {
    Max(1, c.maxRetries)
  }

  /** n attempts lie behind: that many pops, and no logged row beyond attempt n or completed. */
  ghost predicate Past(s: State, id: OccurrenceId, n: nat) {
    Tries(s, id) == n && forall r :: r in s.rows && r.id == id ==> r.attempt <= n && !r.completed
  }

  /** Not before its scheduled second, and after a failed attempt not before the retry delay,
      less the second that truncation to whole seconds can take off. */
  predicate IsDue(c: Config, s: State, it: Item) {
    && Unix(it.at) <= Unix(s.clock)
    && (it.attempt > 0 ==> it.id in s.failedAt && s.clock > s.failedAt[it.id] + c.retryDelay - NS)
  }

  predicate HasLogged(h: Hand) {
    h.Logged? || h.Deactivating? || h.Returned?
  }

  /** The outcome so far: a failed dispatch, or one that has not run yet, has no completed row. */
  predicate Succeeded(h: Hand) {
    match h
    case Logged(_, _, ok) => ok
    case Deactivating(_, _) => true
    case Returned(_, ok) => ok
    case _ => false
  }

  ghost predicate HandOk(c: Config, s: State, h: Hand) {
    && IsDue(c, s, h.item)
    && Tries(s, h.item.id) == h.item.attempt + 1
    && forall r :: r in s.rows && r.id == h.item.id ==>
         && r.attempt <= h.item.attempt + (if HasLogged(h) then 1 else 0)
         && (r.completed ==> Succeeded(h))
  }

  ghost predicate EntryOk(s: State, k: Key, it: Item) {
    k == KeyOf(it) && it.attempt == 0 && k in s.redis.schedules && Past(s, it.id, 0)
  }

  ghost predicate RetryOk(c: Config, s: State, it: Item, score: int) {
    && it.attempt > 0 && Past(s, it.id, it.attempt)
    && Unix(it.at) <= Unix(s.clock)
    && it.id in s.failedAt && score == Unix(s.failedAt[it.id] + c.retryDelay)
  }

  ghost predicate Ok(c: Config, s: State, p: Place)
    requires Live(s, p)
  {
    && ItemAt(s, p).attempt < Bound(c)
    && match p
       case InHash(k) => EntryOk(s, k, s.redis.data[k])
       case InQueue(i) => Past(s, s.redis.queue[i].id, s.redis.queue[i].attempt) && IsDue(c, s, s.redis.queue[i])
       case InHand(w) => HandOk(c, s, s.hands[w])
       case InRetry(it) => RetryOk(c, s, it, s.redis.retry[it])
  }

  ghost predicate AllOk(c: Config, s: State) {
    forall p :: Live(s, p) ==> Ok(c, s, p)
  }

  /** Nothing is known of occurrences that were never issued, and no occurrence is ever tried too
      often. */
  ghost predicate Bounded(c: Config, s: State) {
    && (forall r :: r in s.rows ==> r.id in s.issued)
    && s.tries.Keys <= s.issued
    && (forall id :: Tries(s, id) <= Bound(c))
  }

  // ---------- frame ----------

  /** The step leaves the history of all occurrences but one alone. */
  ghost predicate OnlyAbout(s: State, s': State, id: OccurrenceId) {
    && s.clock <= s'.clock
    && (forall o :: o != id ==> Tries(s', o) == Tries(s, o))
    && (forall o :: o != id && o in s.failedAt ==> o in s'.failedAt && s'.failedAt[o] == s.failedAt[o])
    && (forall r :: r in s'.rows && r.id != id ==> r in s.rows)
  }

  predicate SameSpot(s: State, s': State, p: Place) {
    match p
    case InHash(k) => k in s.redis.data && k in s'.redis.data && s'.redis.data[k] == s.redis.data[k] &&
                      (k in s.redis.schedules ==> k in s'.redis.schedules)
    case InQueue(i) => 0 <= i < |s.redis.queue| && i < |s'.redis.queue| && s'.redis.queue[i] == s.redis.queue[i]
    case InHand(w) => w in s.hands && w in s'.hands && s'.hands[w] == s.hands[w]
    case InRetry(it) => it in s.redis.retry && it in s'.redis.retry && s'.redis.retry[it] == s.redis.retry[it]
  }

  lemma Frame(c: Config, s: State, s': State, id: OccurrenceId, p: Place)
    requires OnlyAbout(s, s', id) && SameSpot(s, s', p)
    requires Ok(c, s, p) && ItemAt(s, p).id != id
    ensures Live(s', p) && Ok(c, s', p)
  {
    assert Unix(s.clock) <= Unix(s'.clock);
  }

  /** A step that only concerns the occurrence at p, which it leaves at q: everything else keeps. */
  lemma FrameAll(c: Config, s: State, s': State, p: Place, q: Place)
    requires AllOk(c, s) && Conserved(s) && Live(s, p)
    requires OnlyAbout(s, s', ItemAt(s, p).id)
    requires forall x :: x != p && x != q && Live(s', x) ==> SameSpot(s, s', x)
    requires Live(s', p) ==> p == q
    requires Live(s', q) ==> Ok(c, s', q)
    ensures AllOk(c, s')
  {
    forall x | Live(s', x)
      ensures Ok(c, s', x)
    {
      if x != q {
        assert Live(s, x);
        assert At(s, ItemAt(s, p).id, p);
        assert At(s, ItemAt(s, x).id, x);
        hide Conserved, OnlyAbout, AllOk, Ok;
        Frame(c, s, s', ItemAt(s, p).id, x);
      }
    }
  }

  /** A step that concerns no occurrence, or one that is gone. */
  ghost predicate Quiet(s: State, s': State) {
    && s.clock <= s'.clock
    && s'.tries == s.tries && s'.failedAt == s.failedAt
    && forall r :: r in s'.rows ==> r in s.rows
  }

  lemma FrameQuiet(c: Config, s: State, s': State)
    requires AllOk(c, s) && Quiet(s, s')
    requires forall x :: Live(s', x) ==> SameSpot(s, s', x)
    ensures AllOk(c, s')
  {
    forall x | Live(s', x)
      ensures Ok(c, s', x)
    {
      assert Live(s, x);
      var other := ItemAt(s, x).id + 1;
      assert OnlyAbout(s, s', other);
      hide OnlyAbout, AllOk, Ok;
      Frame(c, s, s', other, x);
    }
  }

  predicate SameRedis(s: State, s': State) {
    s'.redis == s.redis && s'.hands == s.hands
  }

  lemma FrameAside(c: Config, s: State, s': State)
    requires AllOk(c, s) && Quiet(s, s') && SameRedis(s, s')
    ensures AllOk(c, s')
  {
    hide AllOk, Quiet;
    FrameQuiet(c, s, s');
  }

  lemma FrameAdded(c: Config, s: State, s': State, it: Item)
    requires AllOk(c, s) && Bounded(c, s) && Quiet(s, s')
    requires it.id !in s.issued && it.attempt == 0
    requires s'.redis == Written(s.redis, it) && s'.hands == s.hands
    ensures AllOk(c, s')
  {
    forall x | Live(s', x)
      ensures Ok(c, s', x)
    {
      if x == InHash(KeyOf(it)) {
        assert EntryOk(s', KeyOf(it), it);
      } else {
        assert Live(s, x) && SameSpot(s, s', x);
        var other := ItemAt(s, x).id + 1;
        assert OnlyAbout(s, s', other);
        hide OnlyAbout, AllOk, Ok;
        Frame(c, s, s', other, x);
      }
    }
  }

  /** Every score is the second in its key. */
  ghost predicate Scores(s: State) {
    forall k :: k in s.redis.schedules ==> s.redis.schedules[k] == k.second
  }

  // ---------- steps that hand an item over ----------

  lemma MoveOk(c: Config, s: State, k: Key)
    requires AllOk(c, s) && Conserved(s) && Scores(s) && Enabled(c, s, Move(k))
    ensures AllOk(c, Apply(c, s, Move(k)))
  {
    var s' := Apply(c, s, Move(k));
    var p, q := InHash(k), InQueue(|s.redis.queue|);
    assert Ok(c, s, p);
    assert Ok(c, s', q);
    hide AllOk, Ok, Conserved;
    FrameAll(c, s, s', p, q);
  }

  lemma SecondsLost(f: Instant, now: Instant)
    requires Unix(f) <= Unix(now)
    ensures now > f - NS
  {
  }

  lemma PollOk(c: Config, s: State, it: Item)
    requires AllOk(c, s) && Conserved(s) && Enabled(c, s, Poll(it))
    ensures AllOk(c, Apply(c, s, Poll(it)))
  {
    var s' := Apply(c, s, Poll(it));
    var p, q := InRetry(it), InQueue(|s.redis.queue|);
    assert Ok(c, s, p);
    SecondsLost(s.failedAt[it.id] + c.retryDelay, s.clock);
    assert Ok(c, s', q);
    hide AllOk, Ok, Conserved;
    FrameAll(c, s, s', p, q);
  }

  lemma PopOk(c: Config, s: State, w: nat)
    requires AllOk(c, s) && Conserved(s) && Enabled(c, s, Pop(w))
    ensures AllOk(c, Apply(c, s, Pop(w)))
  {
    var s' := Apply(c, s, Pop(w));
    var p, q := InQueue(|s.redis.queue| - 1), InHand(w);
    assert Ok(c, s, p);
    assert Ok(c, s', q);
    hide AllOk, Ok, Conserved;
    FrameAll(c, s, s', p, q);
  }

  lemma RequeueOk(c: Config, s: State, w: nat)
    requires AllOk(c, s) && Conserved(s) && w in s.hands && s.hands[w].Returned?
    requires !s.hands[w].ok && s.hands[w].item.attempt + 1 < c.maxRetries
    ensures AllOk(c, AfterSettle(c, s, w, true))
  {
    var s' := AfterSettle(c, s, w, true);
    var it := s.hands[w].item;
    var again := it.(attempt := it.attempt + 1);
    var p, q := InHand(w), InRetry(again);
    assert Ok(c, s, p);
    assert RetryOk(c, s', again, s'.redis.retry[again]);
    assert Ok(c, s', q);
    hide AllOk, Ok, Conserved;
    FrameAll(c, s, s', p, q);
  }

  // ---------- steps of a worker that keeps its item ----------

  /** Only the worker's hand, rows about its item, and hash entries that disappear, may change. */
  ghost predicate HandStep(s: State, s': State, w: nat) {
    && w in s.hands && w in s'.hands && s'.hands == s.hands[w := s'.hands[w]]
    && s'.hands[w].item == s.hands[w].item
    && s'.clock == s.clock && s'.tries == s.tries && s'.failedAt == s.failedAt
    && s'.redis.queue == s.redis.queue && s'.redis.retry == s.redis.retry
    && (forall k :: k in s'.redis.data ==> k in s.redis.data && s'.redis.data[k] == s.redis.data[k])
    && (forall k :: k in s'.redis.data && k in s.redis.schedules ==> k in s'.redis.schedules)
    && (forall r :: r in s'.rows && r.id != s.hands[w].item.id ==> r in s.rows)
  }

  lemma HandStepOk(c: Config, s: State, s': State, w: nat)
    requires AllOk(c, s) && Conserved(s) && HandStep(s, s', w)
    requires HandOk(c, s', s'.hands[w])
    ensures AllOk(c, s')
  {
    var p := InHand(w);
    assert Ok(c, s, p);
    assert Ok(c, s', p);
    hide AllOk, Ok, Conserved, HandOk;
    FrameAll(c, s, s', p, p);
  }

  /** The usual worker step: Redis is untouched and at most one row about the item is added. */
  ghost predicate PlainHandStep(s: State, s': State, w: nat, r: Row) {
    && w in s.hands && w in s'.hands && s'.hands == s.hands[w := s'.hands[w]]
    && s'.hands[w].item == s.hands[w].item
    && s'.clock == s.clock && s'.tries == s.tries && s'.failedAt == s.failedAt && s'.redis == s.redis
    && r.id == s.hands[w].item.id
    && (s'.rows == s.rows || s'.rows == s.rows + [r])
  }

  lemma PlainHandStepOk(c: Config, s: State, s': State, w: nat, r: Row)
    requires AllOk(c, s) && Conserved(s) && PlainHandStep(s, s', w, r)
    requires HandOk(c, s', s'.hands[w])
    ensures AllOk(c, s')
  {
    hide AllOk, Conserved, HandOk;
    assert HandStep(s, s', w);
    hide HandStep;
    HandStepOk(c, s, s', w);
  }

  /** The row a worker would write about its item at some attempt. */
  function RowOf(it: Item, completed: bool, attempt: nat): Row {
    Row(it.id, it.event, it.at, completed, attempt)
  }

  lemma DiagnosedOk(c: Config, s: State, w: nat, diagnosed: bool)
    requires AllOk(c, s) && Conserved(s) && w in s.hands && s.hands[w].Popped?
    ensures AllOk(c, Diagnosed(s, s.hands[w].item, diagnosed))
  {
    var it := s.hands[w].item;
    var s' := Diagnosed(s, it, diagnosed);
    assert Ok(c, s, InHand(w));
    hide AllOk, Ok, Conserved, IsDue;
    assert HandOk(c, s', s'.hands[w]);
    assert PlainHandStep(s, s', w, RowOf(it, false, 0));
    hide HandOk, PlainHandStep;
    PlainHandStepOk(c, s, s', w, RowOf(it, false, 0));
  }

  lemma UnplanOk(c: Config, s: State, k: Key)
    requires AllOk(c, s) && k in s.redis.data
    ensures AllOk(c, Forgotten(s, k))
  {
    hide AllOk;
    FrameQuiet(c, s, Forgotten(s, k));
  }

  lemma CleanedOk(c: Config, s: State, it: Item, cleaned: bool)
    requires AllOk(c, s)
    ensures AllOk(c, Cleaned(s, it, cleaned))
  {
    hide AllOk, Forgotten, KeyOf;
    if cleaned && KeyOf(it) in s.redis.data {
      UnplanOk(c, s, KeyOf(it));
    } else {
      FrameQuiet(c, s, Cleaned(s, it, cleaned));
    }
  }

  /** Leaving the first state of the dispatch without a result. */
  lemma EarlyHandOk(c: Config, s: State, w: nat, h: Hand)
    requires AllOk(c, s) && Conserved(s) && w in s.hands && s.hands[w].Popped?
    requires h == Returned(s.hands[w].item, false) || (h.Fetched? && h.item == s.hands[w].item)
    ensures AllOk(c, WithHand(s, w, h))
  {
    var s' := WithHand(s, w, h);
    assert Ok(c, s, InHand(w));
    hide AllOk, Ok, Conserved, IsDue;
    assert HandOk(c, s', h);
    assert PlainHandStep(s, s', w, RowOf(h.item, false, 0));
    hide HandOk, PlainHandStep;
    PlainHandStepOk(c, s, s', w, RowOf(h.item, false, 0));
  }

  lemma FetchOk(c: Config, s: State, w: nat, read: Read)
    requires AllOk(c, s) && Conserved(s) && w in s.hands && s.hands[w].Popped?
    ensures AllOk(c, AfterFetch(s, w, read))
  {
    hide AllOk, Conserved, Diagnosed, Cleaned, WithHand;
    var it := s.hands[w].item;
    var s1 := Diagnosed(s, it, read.diagnosed);
    DiagnosedOk(c, s, w, read.diagnosed);
    DiagnosedConserves(s, it, read.diagnosed);
    match read
    case Error(diagnosed, cleaned) =>
      PreparationKeepsHands(s, it, diagnosed, cleaned);
      CleanedOk(c, s1, it, cleaned);
      CleanedConserves(s1, it, cleaned);
      EarlyHandOk(c, Cleaned(s1, it, cleaned), w, Returned(it, false));
    case Answer(diagnosed) =>
      PreparationKeepsHands(s, it, diagnosed, false);
      EarlyHandOk(c, s1, w, Returned(it, false));
      if it.event in s.events {
        EarlyHandOk(c, s, w, Fetched(it, s.events[it.event]));
      }
  }

  lemma LogOk(c: Config, s: State, w: nat, stored: bool)
    requires AllOk(c, s) && Conserved(s) && Enabled(c, s, Log(w, stored))
    ensures AllOk(c, Apply(c, s, Log(w, stored)))
  {
    var s' := Apply(c, s, Log(w, stored));
    var h := s.hands[w];
    var r := RowOf(h.item, h.ok, h.item.attempt + 1);
    assert Ok(c, s, InHand(w));
    hide AllOk, Ok, Conserved, IsDue;
    assert PlainHandStep(s, s', w, r);
    assert HandOk(c, s', s'.hands[w]);
    hide HandOk, PlainHandStep;
    PlainHandStepOk(c, s, s', w, r);
  }

  lemma WorkerOk(c: Config, s: State, step: Step)
    requires AllOk(c, s) && Conserved(s) && Enabled(c, s, step)
    requires step.Execute? || step.Decide? || step.Deactivate?
    ensures AllOk(c, Apply(c, s, step))
  {
    var s' := Apply(c, s, step);
    var r := RowOf(s.hands[step.w].item, false, 0);
    assert Ok(c, s, InHand(step.w));
    hide AllOk, Ok, Conserved, IsDue, ShouldDeactivate;
    assert PlainHandStep(s, s', step.w, r);
    assert HandOk(c, s', s'.hands[step.w]);
    hide HandOk, PlainHandStep;
    PlainHandStepOk(c, s, s', step.w, r);
  }

  // ---------- steps after which an item is gone ----------

  lemma HandGoneOk(c: Config, s: State, s': State, w: nat)
    requires AllOk(c, s) && Conserved(s) && w in s.hands && Quiet(s, s')
    requires s'.redis == s.redis && s'.hands == s.hands - {w}
    ensures AllOk(c, s')
  {
    hide AllOk, Conserved, Quiet;
    FrameQuiet(c, s, s');
  }

  lemma SettleOk(c: Config, s: State, w: nat, requeued: bool)
    requires AllOk(c, s) && Conserved(s) && w in s.hands && s.hands[w].Returned?
    ensures AllOk(c, AfterSettle(c, s, w, requeued))
  {
    hide AllOk, Conserved;
    if !s.hands[w].ok && s.hands[w].item.attempt + 1 < c.maxRetries && requeued {
      RequeueOk(c, s, w);
    } else {
      HandGoneOk(c, s, AfterSettle(c, s, w, requeued), w);
    }
  }

  lemma EnteredOk(c: Config, s: State, it: Item, planned: Planned)
    requires AllOk(c, s) && Bounded(c, s) && it.id !in s.issued && it.attempt == 0
    ensures AllOk(c, Entered(s, it, planned))
  {
    hide AllOk, Bounded;
    if planned.Stored? {
      FrameAdded(c, s, Entered(s, it, planned), it);
    } else {
      FrameQuiet(c, s, Entered(s, it, planned));
    }
  }

  lemma PlanOk(c: Config, s: State, j: nat, id: OccurrenceId, planned: Planned)
    requires AllOk(c, s) && Bounded(c, s) && HasHead(s, j) && id !in s.issued
    ensures AllOk(c, AfterPlan(s, j, id, planned))
  {
    EnteredOk(c, s, HeadItem(s, j, id), planned);
    hide AllOk, Entered, Planning, SameTables;
    FrameAside(c, Entered(s, HeadItem(s, j, id), planned), AfterPlan(s, j, id, planned));
  }

  lemma PutOk(c: Config, s: State, e: EventId, event: Event)
    requires AllOk(c, s)
    ensures AllOk(c, AfterPut(c, s, e, event))
  {
    hide AllOk;
    FrameAside(c, s, AfterPut(c, s, e, event));
  }

  lemma AsideOk(c: Config, s: State, step: Step)
    requires AllOk(c, s) && Enabled(c, s, step) && Aside(step)
    ensures AllOk(c, Apply(c, s, step))
  {
    hide AllOk, PlanOf, Extended, AfterPut, KeptEvents, ExistsAtTime;
    var s' := Apply(c, s, step);
    match step
    case Put(e, event) => PutOk(c, s, e, event);
    case Delete(e) => FrameAside(c, s, s');
    case Archive => FrameAside(c, s, s');
    case _ => FrameAside(c, s, s');
  }

  lemma StepOk(c: Config, s: State, step: Step)
    requires AllOk(c, s) && Conserved(s) && Bounded(c, s) && Scores(s) && Enabled(c, s, step)
    ensures AllOk(c, Apply(c, s, step))
  {
    hide AllOk, Conserved, Bounded, Scores;
    if Aside(step) {
      AsideOk(c, s, step);
    } else {
      match step
      case Plan(j, id, planned) => PlanOk(c, s, j, id, planned);
      case Move(k) => MoveOk(c, s, k);
      case Poll(it) => PollOk(c, s, it);
      case Pop(w) => PopOk(c, s, w);
      case Fetch(w, read) => FetchOk(c, s, w, read);
      case Log(w, stored) => LogOk(c, s, w, stored);
      case Settle(w, requeued) => SettleOk(c, s, w, requeued);
      case Crash(w) => HandGoneOk(c, s, Apply(c, s, step), w);
      case Unplan(k) => UnplanOk(c, s, k);
      case _ => WorkerOk(c, s, step);
    }
  }

  // ---------- the whole invariant ----------

  /** Attempt counts rise row by row, and a completed row is the last; attempt-0 rows are
      diagnostics and stand outside. */
  ghost predicate History(rows: seq<Row>) {
    forall i, j :: 0 <= i < j < |rows| && rows[i].id == rows[j].id && rows[i].attempt > 0 && rows[j].attempt > 0 ==>
      rows[i].attempt < rows[j].attempt && !rows[i].completed
  }

  lemma {:induction false} FilterKeepsHistory(rows: seq<Row>, p: Row -> bool)
    requires History(rows)
    ensures History(Filter(rows, p))
  {
    if rows != [] {
      var rest := Filter(rows[1..], p);
      FilterKeepsHistory(rows[1..], p);
      forall j | 0 <= j < |rest| && rest[j].id == rows[0].id && rest[j].attempt > 0 && rows[0].attempt > 0
        ensures rows[0].attempt < rest[j].attempt && !rows[0].completed
      {
        assert rest[j] in rows[1..];
      }
      assert Filter(rows, p) == (if p(rows[0]) then [rows[0]] else []) + rest;
    }
  }

  /** How a step changes the table: nothing, a deletion, or one new row about a held item. */
  ghost predicate RowsChange(s: State, s': State) {
    || s'.rows == s.rows
    || (exists p :: s'.rows == Filter(s.rows, p))
    || (exists w, r :: w in s.hands && AppendsFor(s, s', w, r))
  }

  predicate AppendsFor(s: State, s': State, w: nat, r: Row)
    requires w in s.hands
  {
    var h := s.hands[w];
    && s'.rows == s.rows + [r]
    && r.event in s.events
    && ((h.Popped? && r == RowOf(h.item, false, 0)) ||
        (h.Executed? && r == RowOf(h.item, h.ok, h.item.attempt + 1)))
  }

  lemma FetchChangesRows(s: State, w: nat, read: Read)
    requires w in s.hands && s.hands[w].Popped?
    ensures RowsChange(s, AfterFetch(s, w, read))
  {
    hide KeyOf;
    var s' := AfterFetch(s, w, read);
    if s'.rows != s.rows {
      assert AppendsFor(s, s', w, RowOf(s.hands[w].item, false, 0));
    }
  }

  lemma TableChangesRows(c: Config, s: State, step: Step)
    requires Enabled(c, s, step) && (step.Log? || step.Delete? || step.Archive?)
    ensures RowsChange(s, Apply(c, s, step))
  {
    hide KeptEvents;
    var s' := Apply(c, s, step);
    match step
    case Log(w, stored) =>
      if s'.rows != s.rows {
        assert AppendsFor(s, s', w, RowOf(s.hands[w].item, s.hands[w].ok, s.hands[w].item.attempt + 1));
      }
    case Delete(e) =>
      assert s'.rows == Filter(s.rows, (r: Row) => r.event != e);
    case Archive =>
      assert s'.rows == Filter(s.rows, r => IsRecent(s.clock - c.retention, r));
  }

  lemma StepChangesRows(c: Config, s: State, step: Step)
    requires Enabled(c, s, step)
    ensures RowsChange(s, Apply(c, s, step))
  {
    hide PlanOf, Extended, AfterFetch, AfterLook, AfterAsk, AfterPlan, AfterPut, Forgotten, RowsChange;
    if step.Fetch? {
      FetchChangesRows(s, step.w, step.read);
    } else if step.Log? || step.Delete? || step.Archive? {
      TableChangesRows(c, s, step);
    } else {
      SameRows(s, Apply(c, s, step));
    }
  }

  lemma SameRows(s: State, s': State)
    requires s'.rows == s.rows
    ensures RowsChange(s, s')
  {
  }

  lemma AppendKeepsHistory(c: Config, s: State, s': State, w: nat, r: Row)
    requires AllOk(c, s) && History(s.rows) && w in s.hands && AppendsFor(s, s', w, r)
    ensures History(s'.rows)
  {
    assert Ok(c, s, InHand(w));
    hide AllOk, Ok, IsDue;
    assert forall i :: 0 <= i < |s.rows| ==> s.rows[i] in s.rows;
  }

  lemma StepKeepsHistory(c: Config, s: State, step: Step)
    requires AllOk(c, s) && History(s.rows) && Enabled(c, s, step)
    ensures History(Apply(c, s, step).rows)
  {
    hide AllOk, History, Apply, Enabled, AppendsFor;
    StepChangesRows(c, s, step);
    var s' := Apply(c, s, step);
    if p :| s'.rows == Filter(s.rows, p) {
      FilterKeepsHistory(s.rows, p);
    } else if w, r :| w in s.hands && AppendsFor(s, s', w, r) {
      AppendKeepsHistory(c, s, s', w, r);
    }
  }

  lemma OnlyPopTries(c: Config, s: State, step: Step)
    requires Enabled(c, s, step)
    ensures !step.Pop? ==> Apply(c, s, step).tries == s.tries
    ensures s.issued <= Apply(c, s, step).issued
  {
    hide PlanOf, Extended, AfterLook, AfterAsk, AfterPlan, AfterPut, Forgotten, KeptEvents;
    hide AfterFetch, AfterLog, AfterDecide, AfterDeactivate, AfterSettle;
  }

  lemma PopKeepsBounded(c: Config, s: State, w: nat)
    requires AllOk(c, s) && Conserved(s) && Bounded(c, s) && Enabled(c, s, Pop(w))
    ensures Bounded(c, Apply(c, s, Pop(w)))
  {
    var p := InQueue(|s.redis.queue| - 1);
    assert Ok(c, s, p) && At(s, ItemAt(s, p).id, p);
    hide AllOk, Ok, Conserved;
    var s' := Apply(c, s, Pop(w));
    assert forall id :: id != ItemAt(s, p).id ==> Tries(s', id) == Tries(s, id);
  }

  lemma StepKeepsBounded(c: Config, s: State, step: Step)
    requires AllOk(c, s) && Conserved(s) && Bounded(c, s) && Enabled(c, s, step)
    ensures Bounded(c, Apply(c, s, step))
  {
    hide AllOk;
    if step.Pop? {
      PopKeepsBounded(c, s, step.w);
    } else {
      OnlyPopTries(c, s, step);
      StepChangesRows(c, s, step);
      hide Apply, Enabled;
      var s' := Apply(c, s, step);
      assert forall id :: Tries(s', id) == Tries(s, id);
      forall r | r in s'.rows
        ensures r.id in s'.issued
      {
        if r !in s.rows {
          var w, x :| w in s.hands && AppendsFor(s, s', w, x);
          assert At(s, x.id, InHand(w));
        }
      }
    }
  }

  lemma StepKeepsScores(c: Config, s: State, step: Step)
    requires Scores(s) && Enabled(c, s, step)
    ensures Scores(Apply(c, s, step))
  {
    hide PlanOf, Extended, AfterLook, AfterAsk, AfterPlan, AfterPut, Forgotten, KeptEvents;
    hide AfterFetch, AfterLog, AfterDecide, AfterDeactivate, AfterSettle;
  }

  // ---------- runs ----------

  ghost predicate Inv(c: Config, s: State) {
    Conserved(s) && AllOk(c, s) && Bounded(c, s) && Scores(s) && History(s.rows)
  }

  lemma StepKeepsInv(c: Config, s: State, step: Step)
    requires Inv(c, s) && Enabled(c, s, step)
    ensures Inv(c, Apply(c, s, step))
  {
    hide Conserved, AllOk, Bounded, Scores, History, Apply, Enabled;
    StepConserves(c, s, step);
    StepOk(c, s, step);
    StepKeepsBounded(c, s, step);
    StepKeepsScores(c, s, step);
    StepKeepsHistory(c, s, step);
  }

  lemma {:induction false} RunKeepsInv(c: Config, s: State, steps: seq<Step>)
    requires Inv(c, s) && Run(c, s, steps)
    ensures Inv(c, Final(c, s, steps))
    decreases |steps|
  {
    hide Enabled, Apply, Inv;
    if steps != [] {
      StepKeepsInv(c, s, steps[0]);
      RunKeepsInv(c, Apply(c, s, steps[0]), steps[1..]);
    }
  }

  lemma InitialInv(c: Config, s: State)
    requires Initial(s)
    ensures Inv(c, s)
  {
  }

  /** Number of attempts that lie behind a live occurrence. */
  function EarlierAttempts(s: State, p: Place): int
    requires Live(s, p)
  {
    Tries(s, ItemAt(s, p).id) - if p.InHand? then 1 else 0
  }

  /** AttemptCount always tells the number of earlier attempts, and no occurrence is ever dispatched
      more than max(1, maxRetries) times. */
  lemma AttemptsAreCountedAndBounded(c: Config, s0: State, steps: seq<Step>)
    requires Initial(s0) && Run(c, s0, steps)
    ensures var s := Final(c, s0, steps);
            && (forall p :: Live(s, p) ==> ItemAt(s, p).attempt == EarlierAttempts(s, p))
            && (forall id :: Tries(s, id) <= Bound(c))
  {
    InitialInv(c, s0);
    RunKeepsInv(c, s0, steps);
    var s := Final(c, s0, steps);
    forall p | Live(s, p)
      ensures ItemAt(s, p).attempt == EarlierAttempts(s, p)
    {
      assert Ok(c, s, p);
    }
  }

  /** The logged rows of one occurrence: rising attempt counts, at most one completed row, and
      nothing after it. */
  lemma HistoryIsOrdered(c: Config, s0: State, steps: seq<Step>, i: int, j: int)
    requires Initial(s0) && Run(c, s0, steps)
    requires 0 <= i < j < |Final(c, s0, steps).rows|
    ensures var rows := Final(c, s0, steps).rows;
            rows[i].id == rows[j].id && rows[i].attempt > 0 && rows[j].attempt > 0 ==>
              rows[i].attempt < rows[j].attempt && !rows[i].completed
  {
    InitialInv(c, s0);
    RunKeepsInv(c, s0, steps);
  }

  /** No occurrence leaves the hash before its scheduled second, and a worker that pops a retried
      occurrence does so more than retryDelay - 1 s after the failure before. */
  lemma TimingIsKept(c: Config, s0: State, steps: seq<Step>)
    requires Initial(s0) && Run(c, s0, steps)
    ensures var s := Final(c, s0, steps);
            && (forall p :: Live(s, p) && !p.InHash? ==>
                  Unix(ItemAt(s, p).at) <= Unix(s.clock) && ItemAt(s, p).at < s.clock + NS)
            && (forall p :: Live(s, p) && (p.InQueue? || p.InHand?) && ItemAt(s, p).attempt > 0 ==>
                  var it := ItemAt(s, p);
                  it.id in s.failedAt && s.clock - s.failedAt[it.id] > c.retryDelay - NS)
  {
    InitialInv(c, s0);
    RunKeepsInv(c, s0, steps);
    var s := Final(c, s0, steps);
    forall p | Live(s, p) && !p.InHash?
      ensures Unix(ItemAt(s, p).at) <= Unix(s.clock) && ItemAt(s, p).at < s.clock + NS
    {
      assert Ok(c, s, p);
      SecondsLost(ItemAt(s, p).at, s.clock);
    }
    forall p | Live(s, p) && (p.InQueue? || p.InHand?) && ItemAt(s, p).attempt > 0
      ensures ItemAt(s, p).id in s.failedAt && s.clock - s.failedAt[ItemAt(s, p).id] > c.retryDelay - NS
    {
      assert Ok(c, s, p);
    }
  }
}
