/** The event, schedule, dispatch, retry and log pipeline as a state machine. Each step is one
    loop turn of a Redis script, one Redis call or one database call of one goroutine, and any
    number of workers and expansion jobs interleave. Three pairs of calls are one step: the ZADD and
    HSET of ScheduleEvent (module HalfWrites splits them), the ZREM and HDEL of a removal, and a
    failing read of an event with the diagnostic row and the removal that follow it. */
module Pipeline {
  import opened Times
  import opened Recurrence
  import opened Tables
  import opened Redis

  datatype Config = Config(
    maxRetries: int,
    retryDelay: int,
    gracePeriod: int,
    lookAhead: int,
    retention: int)

  /** What a worker holds, by the point it has reached in its loop and in DispatchAction. */
  datatype Hand =
    | Popped(item: Item)
    | Fetched(item: Item, event: Event)
    | Executed(item: Item, event: Event, ok: bool)
    | Logged(item: Item, event: Event, ok: bool)
    | Deactivating(item: Item, event: Event)
    | Returned(item: Item, ok: bool)

  /** The next call of an expansion for the head of its list: ExistsAtTime, HEXISTS, ZADD with HSET. */
  datatype Phase = Looking | Asking | Storing

  /** A running expansion: the event, when it read the clock, what is left of its list. */
  datatype Job = Job(event: EventId, began: Instant, todo: seq<Instant>, phase: Phase)

  /** Where an occurrence ends; an overwritten one lost its hash entry to a second call on its key. */
  datatype Fate = Completed | Dropped | Cancelled | Lost | Overwritten

  /** The part of an event's series that finished expansions have gone through: the open interval
      (from, to). */
  datatype Horizon = Horizon(from: Instant, to: Instant)

  /** The state; the second group of fields is history. The steps read of it only that new occurrence
      ids are new and that a deleted event is not created again, which random UUIDs stand for. */
  datatype State = State(
    clock: Instant,
    redis: Store,
    hands: map<nat, Hand>,
    jobs: map<nat, Job>,
    events: map<EventId, Event>,
    rows: seq<Row>,
    // history
    created: set<EventId>,
    issued: set<OccurrenceId>,
    fate: map<OccurrenceId, Fate>,
    tries: map<OccurrenceId, nat>,
    failedAt: map<OccurrenceId, Instant>,
    moved: multiset<(EventId, Instant)>,
    logged: set<(EventId, Instant)>,
    reached: map<EventId, Horizon>)

  predicate Initial(s: State) {
    && s.redis == Store(map[], map[], [], map[])
    && s.hands == map[] && s.jobs == map[] && s.events == map[] && s.rows == []
    && s.created == {} && s.issued == {} && s.fate == map[] && s.tries == map[]
    && s.failedAt == map[] && s.moved == multiset{} && s.logged == {} && s.reached == map[]
  }

  // ---------- the expander's list ----------

  /** Truncation to Count. */
  function Truncated(xs: seq<Instant>, count: Option<int>): seq<Instant> {
    if count.Some? && 0 <= count.value < |xs| then xs[..count.value] else xs
  }

  function BeforeUntil(xs: seq<Instant>, bound: Instant): (r: seq<Instant>)
    ensures forall x :: x in r <==> x in xs && x < bound
  {
    if xs == [] then []
    else
      assert xs == [xs[0]] + xs[1..];
      (if xs[0] < bound then [xs[0]] else []) + BeforeUntil(xs[1..], bound)
  }

  /** The instants expandRecurringEvent goes through when it reads the clock at now. */
  function PlanOf(c: Config, e: Event, now: Instant): seq<Instant>
    requires e.schedule.Some? && WellFormed(e.schedule.value) && !e.schedule.value.until.Malformed?
  {
    var sch := e.schedule.value;
    var xs := Truncated(Occurrences(sch, e.start, now - c.gracePeriod, now + c.lookAhead), sch.count);
    if sch.until.Before? then BeforeUntil(xs, sch.until.bound) else xs
  }

  // ---------- steps ----------

  /** How ZADD with HSET ends: written, only the ZADD done, or neither; scheduleWithRetry may call
      ScheduleEvent again after a failure, or give the instant up. */
  datatype Planned = Stored | HalfStored(again: bool) | Failed(again: bool)

  datatype Read = Answer(diagnosed: bool) | Error(diagnosed: bool, cleaned: bool)

  datatype Step =
    | Advance(to: Instant)
    // expander
    | Begin(j: nat, e: EventId)
    | BeginOnce(j: nat, e: EventId)
    | Look(j: nat, answered: bool)
    | Ask(j: nat, answered: bool)
    | Plan(j: nat, id: OccurrenceId, planned: Planned)
    | Finish(j: nat)
    // the two Lua scripts, one loop turn each
    | Move(k: Key)
    | Poll(it: Item)
    // a worker
    | Pop(w: nat)
    | Fetch(w: nat, read: Read)
    | Execute(w: nat, ok: bool)
    | Log(w: nat, stored: bool)
    | Decide(w: nat, counted: bool)
    | Deactivate(w: nat, updated: bool)
    | Settle(w: nat, requeued: bool)
    | Crash(w: nat)
    // handlers and archiver
    | Put(e: EventId, event: Event)
    | Unplan(k: Key)
    | Delete(e: EventId)
    | Archive

  predicate Expandable(e: Event) {
    e.schedule.Some? && WellFormed(e.schedule.value) && !e.schedule.value.until.Malformed?
  }

  predicate HasHead(s: State, j: nat) {
    j in s.jobs && s.jobs[j].todo != []
  }

  predicate Enabled(c: Config, s: State, step: Step) {
    match step
    case Advance(to) => to >= s.clock
    case Begin(j, e) => j !in s.jobs && e in s.events && Expandable(s.events[e])
    case BeginOnce(j, e) =>
      && j !in s.jobs && e in s.events && s.events[e].schedule.None?
      && s.clock - c.gracePeriod <= s.events[e].start <= s.clock + c.lookAhead
    case Look(j, _) => HasHead(s, j) && s.jobs[j].phase.Looking?
    case Ask(j, _) => HasHead(s, j) && s.jobs[j].phase.Asking?
    case Plan(j, id, _) => HasHead(s, j) && s.jobs[j].phase.Storing? && id !in s.issued
    case Finish(j) => j in s.jobs && s.jobs[j].todo == []
    case Move(k) => k in s.redis.schedules && 0 <= s.redis.schedules[k] <= Unix(s.clock) && k in s.redis.data
    case Poll(it) => it in s.redis.retry && s.redis.retry[it] <= Unix(s.clock)
    case Pop(w) => w !in s.hands && s.redis.queue != []
    case Fetch(w, _) => w in s.hands && s.hands[w].Popped?
    case Execute(w, _) => w in s.hands && s.hands[w].Fetched?
    case Log(w, _) => w in s.hands && s.hands[w].Executed?
    case Decide(w, _) => w in s.hands && s.hands[w].Logged?
    case Deactivate(w, _) => w in s.hands && s.hands[w].Deactivating?
    case Settle(w, _) => w in s.hands && s.hands[w].Returned?
    case Crash(w) => w in s.hands
    case Put(e, _) => e in s.created ==> e in s.events
    case Unplan(k) => k in s.redis.data
    case Delete(e) => e in s.events
    case Archive => true
  }

  /** What planning, removing and editing leave alone. */
  predicate Planning(s: State, s': State) {
    && s'.clock == s.clock && s'.hands == s.hands && s'.rows == s.rows
    && s'.redis.queue == s.redis.queue && s'.redis.retry == s.redis.retry
    && s'.tries == s.tries && s'.failedAt == s.failedAt && s'.moved == s.moved && s'.logged == s.logged
    && s.issued <= s'.issued
    && ScoresFrom(s, s')
  }

  /** Scores are old, or the second of their key. */
  predicate ScoresFrom(s: State, s': State) {
    forall k :: k in s'.redis.schedules ==>
      || (k in s.redis.schedules && s'.redis.schedules[k] == s.redis.schedules[k])
      || s'.redis.schedules[k] == k.second
  }

  /** What a worker between pop and the end of its loop leaves alone. */
  predicate Working(s: State, s': State) {
    && s'.clock == s.clock && s'.jobs == s.jobs && s'.created == s.created && s'.reached == s.reached
    && s'.redis.queue == s.redis.queue
    && s'.issued == s.issued && s'.tries == s.tries && s'.moved == s.moved
    && ScoresFrom(s, s')
    && (forall k :: k in s'.redis.data ==> k in s.redis.data && s'.redis.data[k] == s.redis.data[k])
  }

  predicate SameTables(s: State, s': State) {
    s'.rows == s.rows && s'.logged == s.logged && s'.created == s.created && s'.events.Keys == s.events.Keys
  }

  /** INSERT INTO occurrences: fails when the event row is gone. */
  function Insert(s: State, r: Row): State {
    if r.event in s.events then s.(rows := s.rows + [r], logged := s.logged + {(r.event, r.at)}) else s
  }

  function ToldFate(s: State, id: OccurrenceId, f: Fate): State {
    s.(fate := s.fate[id := f])
  }

  function Forgotten(s: State, k: Key): (s': State)
    requires k in s.redis.data
    ensures Planning(s, s') && SameTables(s, s') && s'.events == s.events
    ensures s'.jobs == s.jobs && s'.reached == s.reached
  {
    ToldFate(s, s.redis.data[k].id, Cancelled).(redis := Removed(s.redis, k))
  }

  function WithHand(s: State, w: nat, h: Hand): State {
    s.(hands := s.hands[w := h])
  }

  /** The instant at the head of the list is done with. */
  function NextHead(job: Job): Job
    requires job.todo != []
  {
    job.(todo := job.todo[1..], phase := Looking)
  }

  function WithJob(s: State, j: nat, job: Job): State {
    s.(jobs := s.jobs[j := job])
  }

  predicate OnlyJobs(s: State, s': State) {
    s' == s.(jobs := s'.jobs) && s'.jobs.Keys == s.jobs.Keys
  }

  /** ExistsAtTime for the head: an instant with a row is skipped, and so is one whose query fails. */
  function AfterLook(s: State, j: nat, answered: bool): (s': State)
    requires HasHead(s, j)
    ensures OnlyJobs(s, s')
  {
    var job := s.jobs[j];
    WithJob(s, j, if !answered || ExistsAtTime(s.rows, job.event, job.todo[0]) then NextHead(job)
                  else job.(phase := Asking))
  }

  /** HEXISTS for the head's key: a key with data is left alone, and one whose query fails for good is
      given up. */
  function AfterAsk(s: State, j: nat, answered: bool): (s': State)
    requires HasHead(s, j)
    ensures OnlyJobs(s, s')
  {
    var job := s.jobs[j];
    WithJob(s, j, if !answered || KeyFor(job.event, job.todo[0]) in s.redis.data then NextHead(job)
                  else job.(phase := Storing))
  }

  function HeadItem(s: State, j: nat, id: OccurrenceId): Item
    requires HasHead(s, j)
  {
    Item(id, s.jobs[j].event, s.jobs[j].todo[0], 0)
  }

  function EnteredIn(st: Store, it: Item, planned: Planned): (st': Store)
    ensures st'.queue == st.queue && st'.retry == st.retry
    ensures forall k | k in st'.schedules ::
              (k in st.schedules && st'.schedules[k] == st.schedules[k]) || st'.schedules[k] == k.second
  {
    match planned
    case Failed(_) => st
    case HalfStored(_) => st.(schedules := st.schedules[KeyOf(it) := KeyOf(it).second])
    case Stored => Written(st, it)
  }

  /** ZADD and HSET: what another call wrote under the key since HEXISTS is overwritten. */
  function Entered(s: State, it: Item, planned: Planned): (s': State)
    ensures Planning(s, s') && SameTables(s, s') && s'.events == s.events
    ensures s'.jobs == s.jobs && s'.reached == s.reached
  {
    var s1 := s.(redis := EnteredIn(s.redis, it, planned));
    if planned.Stored? then s1.(issued := s.issued + {it.id}, fate := FateAtWrite(s, KeyOf(it))) else s1
  }

  function FateAtWrite(s: State, k: Key): map<OccurrenceId, Fate> {
    if k in s.redis.data then s.fate[s.redis.data[k].id := Overwritten] else s.fate
  }

  function AfterPlan(s: State, j: nat, id: OccurrenceId, planned: Planned): (s': State)
    requires HasHead(s, j)
    ensures Planning(s, s') && SameTables(s, s') && s'.events == s.events
    ensures s'.reached == s.reached && s'.jobs.Keys == s.jobs.Keys
  {
    var job := s.jobs[j];
    var again := !planned.Stored? && planned.again;
    WithJob(Entered(s, HeadItem(s, j, id), planned), j, if again then job.(phase := Asking) else NextHead(job))
  }

  lemma StoredShape(s: State, j: nat, id: OccurrenceId)
    requires HasHead(s, j)
    ensures var it := HeadItem(s, j, id);
            AfterPlan(s, j, id, Stored) ==
            s.(redis := Written(s.redis, it), issued := s.issued + {id}, jobs := s.jobs[j := NextHead(s.jobs[j])],
               fate := if KeyOf(it) in s.redis.data then s.fate[s.redis.data[KeyOf(it)].id := Overwritten] else s.fate)
  {
    hide Planning, SameTables, KeyOf;
  }

  /** logErrOccurrence: an attempt-0 row. */
  function Diagnosed(s: State, it: Item, diagnosed: bool): State {
    if diagnosed then Insert(s, Row(it.id, it.event, it.at, false, 0)) else s
  }

  /** The clean-up of an "orphaned" schedule: whatever is planned under the item's key goes. */
  function Cleaned(s: State, it: Item, cleaned: bool): (s': State)
    ensures Working(s, s') && SameTables(s, s') && s'.events == s.events && s'.hands == s.hands
  {
    var k := KeyOf(it);
    if !cleaned then s
    else if k in s.redis.data then Forgotten(s, k)
    else s.(redis := Removed(s.redis, k))
  }

  /** GetByID and its early exits: a query error, no such event, no action. */
  function AfterFetch(s: State, w: nat, read: Read): (s': State)
    requires w in s.hands && s.hands[w].Popped?
    ensures Working(s, s')
  {
    var it := s.hands[w].item;
    match read
    case Error(diagnosed, cleaned) =>
      WithHand(Cleaned(Diagnosed(s, it, diagnosed), it, cleaned), w, Returned(it, false))
    case Answer(diagnosed) =>
      if it.event in s.events && s.events[it.event].hasAction
      then WithHand(s, w, Fetched(it, s.events[it.event]))
      else WithHand(Diagnosed(s, it, diagnosed), w, Returned(it, false))
  }

  /** At most the entry under k is erased, and its occurrence cancelled. */
  predicate OnlyErases(s: State, s': State, k: Key) {
    && s'.redis.retry == s.redis.retry
    && (s'.redis.data == s.redis.data || (k in s.redis.data && s'.redis.data == s.redis.data - {k}))
    && (s'.fate == s.fate || (k in s.redis.data && s'.fate == s.fate[s.redis.data[k].id := Cancelled]))
  }

  lemma CleanedShape(s: State, it: Item, cleaned: bool)
    ensures var s' := Cleaned(s, it, cleaned);
            && s'.hands == s.hands && s'.events == s.events && s'.created == s.created
            && s'.rows == s.rows && s'.logged == s.logged && OnlyErases(s, s', KeyOf(it))
  {
    hide KeyOf, Working, SameTables, Planning;
    var s', k := Cleaned(s, it, cleaned), KeyOf(it);
    if !cleaned {
      assert s' == s;
    } else {
      assert s' == s.(redis := Removed(s.redis, k),
                      fate := if k in s.redis.data then s.fate[s.redis.data[k].id := Cancelled] else s.fate);
      hide Cleaned;
      assert k !in s.redis.data ==> s.redis.data - {k} == s.redis.data;
    }
  }

  lemma DiagnosedShape(s: State, it: Item, diagnosed: bool)
    ensures var s' := Diagnosed(s, it, diagnosed);
            var r := Row(it.id, it.event, it.at, false, 0);
            && s' == s.(rows := s'.rows, logged := s'.logged)
            && ((s'.rows == s.rows && s'.logged == s.logged) ||
                (s'.rows == Insert(s, r).rows && s'.logged == Insert(s, r).logged))
  {
  }

  ghost predicate FetchedWell(s: State, s': State, w: nat, it: Item) {
    var r := Row(it.id, it.event, it.at, false, 0);
    && w in s'.hands && s'.hands == s.hands[w := s'.hands[w]]
    && (s'.hands[w] == Returned(it, false) ||
        (it.event in s.events && s'.hands[w] == Fetched(it, s.events[it.event])))
    && s'.events == s.events && s'.created == s.created
    && ((s'.rows == s.rows && s'.logged == s.logged) ||
        (s'.rows == Insert(s, r).rows && s'.logged == Insert(s, r).logged))
  }

  lemma FailedFetchShape(s: State, w: nat, diagnosed: bool, cleaned: bool)
    requires w in s.hands && s.hands[w].Popped?
    ensures FetchedWell(s, AfterFetch(s, w, Error(diagnosed, cleaned)), w, s.hands[w].item)
  {
    var it := s.hands[w].item;
    hide Cleaned, KeyOf, Working, SameTables, Diagnosed, Insert;
    DiagnosedShape(s, it, diagnosed);
    CleanedShape(Diagnosed(s, it, diagnosed), it, cleaned);
  }

  /** The shape of a fetch: one hand moves on, with the event as it stands or with a failure, and at
      most a diagnostic row is added. */
  lemma FetchShape(s: State, w: nat, read: Read)
    requires w in s.hands && s.hands[w].Popped?
    ensures FetchedWell(s, AfterFetch(s, w, read), w, s.hands[w].item)
  {
    hide FetchedWell, AfterFetch;
    match read
    case Error(diagnosed, cleaned) => FailedFetchShape(s, w, diagnosed, cleaned);
    case Answer(diagnosed) => AnsweredFetchShape(s, w, diagnosed);
  }

  lemma AnsweredFetchShape(s: State, w: nat, diagnosed: bool)
    requires w in s.hands && s.hands[w].Popped?
    ensures FetchedWell(s, AfterFetch(s, w, Answer(diagnosed)), w, s.hands[w].item)
  {
    hide Working, SameTables, Diagnosed, Insert;
    var it := s.hands[w].item;
    var s' := AfterFetch(s, w, Answer(diagnosed));
    if it.event in s.events && s.events[it.event].hasAction {
      assert s' == WithHand(s, w, Fetched(it, s.events[it.event]));
    } else {
      assert s' == WithHand(Diagnosed(s, it, diagnosed), w, Returned(it, false));
      hide AfterFetch;
      DiagnosedShape(s, it, diagnosed);
    }
  }

  lemma FailedFetchRedis(s: State, w: nat, diagnosed: bool, cleaned: bool)
    requires w in s.hands && s.hands[w].Popped?
    ensures OnlyErases(s, AfterFetch(s, w, Error(diagnosed, cleaned)), KeyOf(s.hands[w].item))
  {
    var it := s.hands[w].item;
    hide Cleaned, KeyOf, Working, SameTables, Diagnosed, Insert;
    DiagnosedShape(s, it, diagnosed);
    CleanedShape(Diagnosed(s, it, diagnosed), it, cleaned);
  }

  /** What a fetch can do to Redis and to other occurrences: the clean-up of the item's own key. */
  lemma FetchRedis(s: State, w: nat, read: Read)
    requires w in s.hands && s.hands[w].Popped?
    ensures OnlyErases(s, AfterFetch(s, w, read), KeyOf(s.hands[w].item))
  {
    hide KeyOf, Working, SameTables, Diagnosed, Insert;
    match read
    case Error(diagnosed, cleaned) =>
      hide OnlyErases, AfterFetch;
      FailedFetchRedis(s, w, diagnosed, cleaned);
    case Answer(diagnosed) =>
      DiagnosedShape(s, s.hands[w].item, diagnosed);
  }

  /** Whether DispatchAction goes on to write the event inactive. */
  predicate ShouldDeactivate(s: State, id: EventId, e: Event, ok: bool, counted: bool) {
    && ok && e.status.Active?
    && (e.schedule.None? ||
        (e.schedule.value.count.Some? && counted &&
         CountCompleted(s.rows, id) >= e.schedule.value.count.value) ||
        (e.schedule.value.until.Before? && s.clock > e.schedule.value.until.bound))
  }

  /** Create of the occurrence row for this attempt. */
  function AfterLog(s: State, w: nat, stored: bool): (s': State)
    requires w in s.hands && s.hands[w].Executed?
    ensures Working(s, s') && s'.events == s.events
    ensures s'.redis.data == s.redis.data
  {
    var Executed(it, e, ok) := s.hands[w];
    var row := Row(it.id, it.event, it.at, ok, it.attempt + 1);
    WithHand(if stored then Insert(s, row) else s, w, Logged(it, e, ok))
  }

  function AfterDecide(s: State, w: nat, counted: bool): (s': State)
    requires w in s.hands && s.hands[w].Logged?
    ensures Working(s, s') && SameTables(s, s')
    ensures s'.redis.data == s.redis.data
  {
    var Logged(it, e, ok) := s.hands[w];
    WithHand(s, w, if ShouldDeactivate(s, it.event, e, ok, counted) then Deactivating(it, e)
                   else Returned(it, ok))
  }

  /** Update writes the whole event as it was read, but for the status. */
  function AfterDeactivate(s: State, w: nat, updated: bool): (s': State)
    requires w in s.hands && s.hands[w].Deactivating?
    ensures Working(s, s') && SameTables(s, s')
    ensures s'.redis.data == s.redis.data
  {
    var Deactivating(it, e) := s.hands[w];
    var s1 := if updated && it.event in s.events
              then s.(events := s.events[it.event := e.(status := Inactive)]) else s;
    WithHand(s1, w, Returned(it, true))
  }

  function Requeued(c: Config, s: State, it: Item): (s': State)
    ensures Working(s, s') && SameTables(s, s') && s'.events == s.events && s'.hands == s.hands
    ensures s'.redis.data == s.redis.data
  {
    s.(redis := s.redis.(retry := s.redis.retry[it.(attempt := it.attempt + 1) := Unix(s.clock + c.retryDelay)]),
       failedAt := s.failedAt[it.id := s.clock])
  }

  /** The worker loop after DispatchAction returned. */
  function AfterSettle(c: Config, s: State, w: nat, requeued: bool): (s': State)
    requires w in s.hands && s.hands[w].Returned?
    ensures Working(s, s') && SameTables(s, s') && s'.events == s.events && s'.hands == s.hands - {w}
    ensures s'.redis.data == s.redis.data
  {
    Settled(c, s, s.hands[w].item, s.hands[w].ok, requeued).(hands := s.hands - {w})
  }

  function Settled(c: Config, s: State, it: Item, ok: bool, requeued: bool): (s': State)
    ensures Working(s, s') && SameTables(s, s') && s'.events == s.events && s'.hands == s.hands
    ensures s'.redis.data == s.redis.data
  {
    if ok then ToldFate(s, it.id, Completed)
    else if it.attempt + 1 >= c.maxRetries then ToldFate(s, it.id, Dropped)
    else if !requeued then ToldFate(s, it.id, Lost)
    else Requeued(c, s, it)
  }

  /** History: what a finished job adds to the event's horizon. */
  function Extended(c: Config, s: State, job: Job): Horizon {
    var low, high := job.began - c.gracePeriod, job.began + c.lookAhead;
    if job.event in s.reached then
      Horizon(Min(s.reached[job.event].from, low), Max(s.reached[job.event].to, high))
    else Horizon(low, high)
  }

  /** Create or update of the event row. CreateEvent skips the immediate expansion when the start
      lies beyond the look-ahead window: nothing of the series is in that window. */
  function AfterPut(c: Config, s: State, e: EventId, event: Event): (s': State)
    ensures Planning(s, s')
    ensures s'.jobs == s.jobs && s'.redis == s.redis
  {
    var s1 := s.(events := s.events[e := event], created := s.created + {e});
    if e !in s.created && event.start >= s.clock + c.lookAhead
    then s1.(reached := s.reached[e := Horizon(s.clock - c.gracePeriod, s.clock + c.lookAhead)])
    else s1
  }

  function Apply(c: Config, s: State, step: Step): State
    requires Enabled(c, s, step)
  {
    match step
    case Advance(to) => s.(clock := to)
    case Begin(j, e) => WithJob(s, j, Job(e, s.clock, PlanOf(c, s.events[e], s.clock), Looking))
    case BeginOnce(j, e) => WithJob(s, j, Job(e, s.clock, [s.events[e].start], Asking))
    case Look(j, answered) => AfterLook(s, j, answered)
    case Ask(j, answered) => AfterAsk(s, j, answered)
    case Plan(j, id, planned) => AfterPlan(s, j, id, planned)
    case Finish(j) =>
      var job := s.jobs[j];
      s.(jobs := s.jobs - {j}, reached := s.reached[job.event := Extended(c, s, job)])
    case Move(k) =>
      s.(redis := Moved(s.redis, k), moved := s.moved + multiset{(s.redis.data[k].event, s.redis.data[k].at)})
    case Poll(it) => s.(redis := Polled(s.redis, it))
    case Pop(w) =>
      var n := |s.redis.queue| - 1;
      var it := s.redis.queue[n];
      WithHand(s, w, Popped(it)).(redis := s.redis.(queue := s.redis.queue[..n]),
                                  tries := s.tries[it.id := Tries(s, it.id) + 1])
    case Fetch(w, read) => AfterFetch(s, w, read)
    case Execute(w, ok) => WithHand(s, w, Executed(s.hands[w].item, s.hands[w].event, ok))
    case Log(w, stored) => AfterLog(s, w, stored)
    case Decide(w, counted) => AfterDecide(s, w, counted)
    case Deactivate(w, updated) => AfterDeactivate(s, w, updated)
    case Settle(w, requeued) => AfterSettle(c, s, w, requeued)
    case Crash(w) => ToldFate(s, s.hands[w].item.id, Lost).(hands := s.hands - {w})
    case Put(e, event) => AfterPut(c, s, e, event)
    case Unplan(k) => Forgotten(s, k)
    case Delete(e) =>
      s.(events := s.events - {e}, rows := Filter(s.rows, (r: Row) => r.event != e))
    case Archive =>
      var cutoff := s.clock - c.retention;
      s.(events := KeptEvents(s.events, s.rows, cutoff), rows := RecentRows(s.rows, cutoff))
  }

  function Tries(s: State, id: OccurrenceId): nat {
    if id in s.tries then s.tries[id] else 0
  }

  // ---------- the calls of an undisturbed expansion ----------

  lemma AskSkips(c: Config, s: State, j: nat)
    requires HasHead(s, j) && s.jobs[j].phase.Asking?
    requires KeyFor(s.jobs[j].event, s.jobs[j].todo[0]) in s.redis.data
    ensures Enabled(c, s, Ask(j, true))
    ensures Apply(c, s, Ask(j, true)) == WithJob(s, j, NextHead(s.jobs[j]))
  {
  }

  lemma AskGoesOn(c: Config, s: State, j: nat)
    requires HasHead(s, j) && s.jobs[j].phase.Asking?
    requires KeyFor(s.jobs[j].event, s.jobs[j].todo[0]) !in s.redis.data
    ensures Enabled(c, s, Ask(j, true))
    ensures Apply(c, s, Ask(j, true)) == WithJob(s, j, s.jobs[j].(phase := Storing))
  {
  }

  lemma PlanGoesOn(c: Config, s: State, j: nat, id: OccurrenceId)
    requires HasHead(s, j) && s.jobs[j].phase.Storing? && id !in s.issued
    requires KeyOf(HeadItem(s, j, id)) !in s.redis.data
    ensures Enabled(c, s, Plan(j, id, Stored))
    ensures Apply(c, s, Plan(j, id, Stored)) ==
            s.(redis := Written(s.redis, HeadItem(s, j, id)), issued := s.issued + {id},
               jobs := s.jobs[j := NextHead(s.jobs[j])])
  {
    StoredShape(s, j, id);
    hide AfterPlan, KeyOf;
  }

  lemma FinishGoesOn(c: Config, s: State, j: nat)
    requires j in s.jobs && s.jobs[j].todo == []
    ensures Enabled(c, s, Finish(j))
    ensures var s' := Apply(c, s, Finish(j)); s' == s.(jobs := s.jobs - {j}, reached := s'.reached)
  {
    hide Extended;
  }

  // ---------- runs ----------

  predicate Run(c: Config, s: State, steps: seq<Step>)
    decreases |steps|
  {
    steps == [] || (Enabled(c, s, steps[0]) && Run(c, Apply(c, s, steps[0]), steps[1..]))
  }

  function Final(c: Config, s: State, steps: seq<Step>): State
    requires Run(c, s, steps)
    decreases |steps|
  {
    if steps == [] then s else Final(c, Apply(c, s, steps[0]), steps[1..])
  }

  lemma {:induction false} RunSnoc(c: Config, s: State, steps: seq<Step>, step: Step)
    requires Run(c, s, steps) && Enabled(c, Final(c, s, steps), step)
    ensures Run(c, s, steps + [step])
    ensures Final(c, s, steps + [step]) == Apply(c, Final(c, s, steps), step)
    decreases |steps|
  {
    hide Enabled, Apply;
    var all := steps + [step];
    if steps == [] {
      assert all[1..] == [];
      var s1 := Apply(c, s, step);
      assert Run(c, s1, []) && Final(c, s1, []) == s1;
    } else {
      assert all[0] == steps[0] && all[1..] == steps[1..] + [step];
      RunSnoc(c, Apply(c, s, steps[0]), steps[1..], step);
    }
  }

  lemma NoSteps(c: Config, s: State)
    ensures Run(c, s, []) && Final(c, s, []) == s
  {
  }

  /** One more step at the end of a run, by its effect. */
  lemma Then(c: Config, s: State, steps: seq<Step>, step: Step, last: State)
    requires Run(c, s, steps) && Enabled(c, Final(c, s, steps), step)
    requires Apply(c, Final(c, s, steps), step) == last
    ensures Run(c, s, steps + [step]) && Final(c, s, steps + [step]) == last
  {
    hide *;
    RunSnoc(c, s, steps, step);
  }

  lemma {:induction false} RunAppend(c: Config, s: State, first: seq<Step>, second: seq<Step>)
    requires Run(c, s, first) && Run(c, Final(c, s, first), second)
    ensures Run(c, s, first + second) && Final(c, s, first + second) == Final(c, Final(c, s, first), second)
    decreases |first|
  {
    hide Enabled, Apply;
    if first == [] {
      assert first + second == second;
    } else {
      RunAppend(c, Apply(c, s, first[0]), first[1..], second);
      assert (first + second)[1..] == first[1..] + second;
    }
  }

  lemma RunOfTwo(c: Config, s: State, a: Step, b: Step)
    requires Enabled(c, s, a) && Enabled(c, Apply(c, s, a), b)
    ensures Run(c, s, [a, b]) && Final(c, s, [a, b]) == Apply(c, Apply(c, s, a), b)
  {
    hide Enabled, Apply;
    var s1 := Apply(c, s, a);
    var s2 := Apply(c, s1, b);
    assert Run(c, s2, []) && Final(c, s2, []) == s2;
    assert [b][1..] == [];
    assert Run(c, s1, [b]) && Final(c, s1, [b]) == s2;
    assert [a, b][1..] == [b];
  }
}
