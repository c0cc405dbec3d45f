/** One turn of a dispatcher worker: pop, DispatchAction, requeue or drop. Undisturbed, it is a run
    of the state machine. */
module Worker {
  import opened Times
  import opened Recurrence
  import opened Tables
  import opened Redis
  import opened Pipeline
  import Archive

  /** How the foreign calls of one turn end. */
  datatype Calls = Calls(read: Read, executed: bool, stored: bool, counted: bool, updated: bool, requeued: bool)

  // ---------- the turn on values ----------

  function AfterExecute(s: State, w: nat, ok: bool): State
    requires w in s.hands && s.hands[w].Fetched?
  {
    WithHand(s, w, Executed(s.hands[w].item, s.hands[w].event, ok))
  }

  /** From the logged row to the end of DispatchAction. */
  function Closed(s: State, w: nat, calls: Calls): (s': State)
    requires w in s.hands && s.hands[w].Logged?
    ensures w in s'.hands && s'.clock == s.clock
    ensures s.hands[w].ok == calls.executed ==> s'.hands[w] == Returned(s.hands[w].item, calls.executed)
  {
    var s1 := AfterDecide(s, w, calls.counted);
    if s1.hands[w].Deactivating? then AfterDeactivate(s1, w, calls.updated) else s1
  }

  /** From the moment the event has been read. */
  function AfterAction(s: State, w: nat, calls: Calls): (s': State)
    requires w in s.hands && s.hands[w].Fetched?
    ensures w in s'.hands && s'.hands[w] == Returned(s.hands[w].item, calls.executed) && s'.clock == s.clock
  {
    Closed(AfterLog(AfterExecute(s, w, calls.executed), w, calls.stored), w, calls)
  }

  /** DispatchAction. */
  function AfterDispatch(s: State, w: nat, calls: Calls): (s': State)
    requires w in s.hands && s.hands[w].Popped?
    ensures w in s'.hands && s'.hands[w].Returned? && s'.hands[w].item == s.hands[w].item
    ensures s'.clock == s.clock
  {
    var s1 := AfterFetch(s, w, calls.read);
    if s1.hands[w].Fetched? then AfterAction(s1, w, calls) else s1
  }

  function AfterTurn(c: Config, s: State, w: nat, calls: Calls): State
    requires Enabled(c, s, Pop(w))
  {
    AfterSettle(c, AfterDispatch(Apply(c, s, Pop(w)), w, calls), w, calls.requeued)
  }

  // ---------- the turn is a run ----------

  lemma ActionShape(s: State, w: nat, calls: Calls)
    requires w in s.hands && s.hands[w].Fetched?
    ensures var s1 := AfterExecute(s, w, calls.executed);
            w in s1.hands && s1.hands[w].Executed? &&
            var s2 := AfterLog(s1, w, calls.stored);
            w in s2.hands && s2.hands[w].Logged? && w in AfterDecide(s2, w, calls.counted).hands
  {
    hide Insert, ShouldDeactivate, Working, SameTables, CountCompleted;
  }

  lemma ClosedIsRun(c: Config, s: State, w: nat, calls: Calls) returns (steps: seq<Step>)
    requires w in s.hands && s.hands[w].Logged?
    ensures Run(c, s, steps) && Final(c, s, steps) == Closed(s, w, calls)
  {
    hide ShouldDeactivate, Run, Final, AfterDeactivate, Working, SameTables;
    var s1 := AfterDecide(s, w, calls.counted);
    NoSteps(c, s);
    Then(c, s, [], Decide(w, calls.counted), s1);
    steps := [] + [Decide(w, calls.counted)];
    if s1.hands[w].Deactivating? {
      Then(c, s, steps, Deactivate(w, calls.updated), AfterDeactivate(s1, w, calls.updated));
      steps := steps + [Deactivate(w, calls.updated)];
    }
  }

  lemma ActionIsRun(c: Config, s: State, w: nat, calls: Calls) returns (steps: seq<Step>)
    requires w in s.hands && s.hands[w].Fetched?
    ensures Run(c, s, steps) && Final(c, s, steps) == AfterAction(s, w, calls)
  {
    hide Closed, Run, Final, AfterLog, AfterDecide, Working, SameTables;
    var s1 := AfterExecute(s, w, calls.executed);
    ActionShape(s, w, calls);
    var s2 := AfterLog(s1, w, calls.stored);
    NoSteps(c, s);
    Then(c, s, [], Execute(w, calls.executed), s1);
    steps := [] + [Execute(w, calls.executed)];
    Then(c, s, steps, Log(w, calls.stored), s2);
    steps := steps + [Log(w, calls.stored)];
    var more := ClosedIsRun(c, s2, w, calls);
    RunAppend(c, s, steps, more);
    steps := steps + more;
  }

  lemma DispatchIsRun(c: Config, s: State, w: nat, calls: Calls) returns (steps: seq<Step>)
    requires w in s.hands && s.hands[w].Popped?
    ensures Run(c, s, steps) && Final(c, s, steps) == AfterDispatch(s, w, calls)
  {
    hide AfterFetch, AfterAction, Run, Final, Working, SameTables;
    var s1 := AfterFetch(s, w, calls.read);
    NoSteps(c, s);
    Then(c, s, [], Fetch(w, calls.read), s1);
    steps := [] + [Fetch(w, calls.read)];
    FetchShape(s, w, calls.read);
    if s1.hands[w].Fetched? {
      var more := ActionIsRun(c, s1, w, calls);
      RunAppend(c, s, steps, more);
      steps := steps + more;
    }
  }

  lemma PopAndSettle(c: Config, s: State, w: nat, calls: Calls)
    requires Enabled(c, s, Pop(w))
    ensures var s1 := Apply(c, s, Pop(w));
            w in s1.hands && s1.hands[w].Popped? &&
            var s2 := AfterDispatch(s1, w, calls);
            Enabled(c, s2, Settle(w, calls.requeued)) &&
            Apply(c, s2, Settle(w, calls.requeued)) == AfterSettle(c, s2, w, calls.requeued)
  {
    hide AfterDispatch, AfterSettle, Tries, Working, SameTables;
  }

  /** A worker's turn with nothing in between is a run from Pop to Settle. */
  lemma TurnIsRun(c: Config, s: State, w: nat, calls: Calls) returns (steps: seq<Step>)
    requires Enabled(c, s, Pop(w))
    ensures Run(c, s, steps) && Final(c, s, steps) == AfterTurn(c, s, w, calls)
  {
    PopAndSettle(c, s, w, calls);
    hide Enabled, Apply, AfterDispatch, AfterSettle, Run, Final;
    NoSteps(c, s);
    var s1 := Apply(c, s, Pop(w));
    Then(c, s, [], Pop(w), s1);
    var s2 := AfterDispatch(s1, w, calls);
    var more := DispatchIsRun(c, s1, w, calls);
    RunAppend(c, s, [] + [Pop(w)], more);
    steps := [] + [Pop(w)] + more;
    Then(c, s, steps, Settle(w, calls.requeued), AfterSettle(c, s2, w, calls.requeued));
    steps := steps + [Settle(w, calls.requeued)];
  }

  /** What the end of DispatchAction does to the tables. */
  lemma ClosedShape(s: State, it: Item, e: Event, w: nat, calls: Calls)
    requires w in s.hands && s.hands[w] == Logged(it, e, calls.executed)
    ensures var s' := Closed(s, w, calls);
            && s'.redis == s.redis && s'.rows == s.rows
            && s'.events == if ShouldDeactivate(s, it.event, e, calls.executed, calls.counted) &&
                               calls.updated && it.event in s.events
                            then s.events[it.event := e.(status := Inactive)] else s.events
  {
    hide ShouldDeactivate, Working, SameTables;
  }

  /** Last in, first out: an item that is moved is popped before all that were queued earlier, and they
      stay as they were. */
  lemma NewestIsPopped(c: Config, s: State, k: Key, w: nat)
    requires Enabled(c, s, Move(k)) && w !in s.hands
    ensures Run(c, s, [Move(k), Pop(w)])
    ensures var s' := Final(c, s, [Move(k), Pop(w)]);
            w in s'.hands && s'.hands[w] == Popped(s.redis.data[k]) && s'.redis.queue == s.redis.queue
  {
    hide Tries;
    RunOfTwo(c, s, Move(k), Pop(w));
  }

  /** What the read of the event leads to. */
  lemma FetchExact(s: State, w: nat, read: Read)
    requires w in s.hands && s.hands[w].Popped?
    ensures var it := s.hands[w].item;
            read.Answer? && it.event in s.events && s.events[it.event].hasAction ==>
              AfterFetch(s, w, read) == s.(hands := s.hands[w := Fetched(it, s.events[it.event])])
    ensures var it := s.hands[w].item;
            !(read.Answer? && it.event in s.events && s.events[it.event].hasAction) ==>
              w in AfterFetch(s, w, read).hands && AfterFetch(s, w, read).hands[w] == Returned(it, false)
  {
    hide Insert, Diagnosed, Cleaned, Working, SameTables;
  }

  lemma PopExact(c: Config, s: State, w: nat)
    requires w !in s.hands && s.redis.queue != []
    ensures Enabled(c, s, Pop(w))
    ensures var s', n := Apply(c, s, Pop(w)), |s.redis.queue| - 1;
            && w in s'.hands && s'.hands[w] == Popped(s.redis.queue[n])
            && s'.redis == s.redis.(queue := s.redis.queue[..n])
            && s'.clock == s.clock && s'.events == s.events && s'.rows == s.rows
  {
    hide Tries;
  }

  lemma SuccessIsKept(c: Config, s: State, w: nat, requeued: bool)
    requires w in s.hands && s.hands[w].Returned? && s.hands[w].ok
    ensures var s' := AfterSettle(c, s, w, requeued); s'.redis == s.redis && s'.events == s.events && s'.rows == s.rows
  {
  }

  // ---------- the code ----------

  class Dispatcher {
    const c: Config
    const client: Client
    const db: Archive.Database

    constructor (c: Config, client: Client, db: Archive.Database)
      ensures this.c == c && this.client == client && this.db == db
    {
      this.c, this.client, this.db := c, client, db;
    }

    predicate Shows(s: State)
      reads client, db
    {
      client.View() == s.redis && db.events == s.events && db.rows == s.rows
    }

    /** The occurrence repository's Create: the foreign key refuses rows without an event. */
    method CreateRow(r: Row, ghost s: State)
      requires Shows(s)
      modifies db`rows
      ensures Shows(Insert(s, r))
      ensures db.rows == old(db.rows) + if r.event in db.events then [r] else []
    {
      if r.event in db.events {
        db.rows := db.rows + [r];
      }
    }

    /** logErrOccurrence and the clean-up after the event could not be read. */
    method Diagnose(it: Item, diagnosed: bool, ghost s: State)
      requires Shows(s)
      modifies db`rows
      ensures Shows(Diagnosed(s, it, diagnosed))
      ensures db.rows == old(db.rows) + if diagnosed && it.event in db.events
                                        then [Row(it.id, it.event, it.at, false, 0)] else []
    {
      if diagnosed {
        CreateRow(Row(it.id, it.event, it.at, false, 0), s);
      }
    }

    method CleanUp(it: Item, cleaned: bool, ghost s: State)
      requires Shows(s)
      modifies client
      ensures Shows(Cleaned(s, it, cleaned))
      ensures client.queue == old(client.queue) && client.retry == old(client.retry)
      ensures var gone := if cleaned then {Key(it.event, it.at / 1_000_000_000)} else {};
              client.schedules == old(client.schedules) - gone && client.data == old(client.data) - gone
    {
      if cleaned {
        var key := KeyOf(it);
        client.schedules := client.schedules - {key};
        client.data := client.data - {key};
      }
    }

    /** Whether the completed occurrence was the event's last: events with a schedule. */
    method IsFinished(it: Item, sch: Schedule, now: Instant, counted: bool) returns (finished: bool)
      ensures finished <==>
                (sch.count.Some? && counted && CountCompleted(db.rows, it.event) >= sch.count.value) ||
                (sch.until.Before? && now > sch.until.bound)
    {
      finished := false;
      if sch.count.Some? {
        var completed := CountCompleted(db.rows, it.event);
        if counted && completed >= sch.count.value {
          finished := true;
        }
      }
      if !finished && sch.until.Before? {
        finished := now > sch.until.bound;
      }
    }

    /** The event has no further occurrence once one has completed: it has no schedule, or Count rows are
        completed, or Until has passed. */
    predicate IsExhausted(rows: seq<Row>, id: EventId, event: Event, now: Instant, counted: bool) {
      event.schedule.None? ||
      (event.schedule.value.count.Some? && counted &&
       |CompletedAt(rows, id)| >= event.schedule.value.count.value) ||
      (event.schedule.value.until.Before? && now > event.schedule.value.until.bound)
    }

    /** The event table at the end of a dispatch that was executed with success or failure. */
    function EventsAfter(events: map<EventId, Event>, rows: seq<Row>, id: EventId, e: Event, now: Instant,
                         calls: Calls): map<EventId, Event>
    {
      if calls.executed && e.status.Active? && calls.updated && id in events &&
         IsExhausted(rows, id, e, now, calls.counted)
      then events[id := e.(status := Inactive)] else events
    }

    /** Whether this dispatch makes the event inactive. */
    method IsLast(it: Item, event: Event, now: Instant, ok: bool, counted: bool, ghost s: State) returns (last: bool)
      requires db.rows == s.rows && now == s.clock
      ensures last == ShouldDeactivate(s, it.event, event, ok, counted)
      ensures last <==> ok && event.status.Active? && IsExhausted(db.rows, it.event, event, now, counted)
    {
      CountCompletedExact(db.rows, it.event);
      hide CountCompleted, CompletedAt;
      last := false;
      if event.schedule.None? && event.status.Active? && ok {
        last := true;
      }
      if event.schedule.Some? && event.status.Active? && ok {
        last := IsFinished(it, event.schedule.value, now, counted);
      }
    }

    /** What follows the logged row. */
    method Inactivate(it: Item, e: Event, now: Instant, calls: Calls, ghost s: State, ghost w: nat)
      requires Shows(s) && s.clock == now && w in s.hands && s.hands[w] == Logged(it, e, calls.executed)
      modifies db`events
      ensures Shows(Closed(s, w, calls))
      ensures db.events == EventsAfter(old(db.events), db.rows, it.event, e, now, calls)
    {
      ClosedShape(s, it, e, w, calls);
      hide ShouldDeactivate, Closed, IsExhausted;
      var last := IsLast(it, e, now, calls.executed, calls.counted, s);
      if last {
        var event := e.(status := Inactive);
        if calls.updated && it.event in db.events {
          db.events := db.events[it.event := event];
        }
      }
    }

    /** DispatchAction once the event has been read. */
    method RunAction(it: Item, event: Event, now: Instant, calls: Calls, ghost s: State, ghost w: nat)
      returns (ok: bool)
      requires Shows(s) && s.clock == now && w in s.hands && s.hands[w] == Fetched(it, event)
      modifies db
      ensures Shows(AfterAction(s, w, calls)) && ok == calls.executed
      ensures db.rows == old(db.rows) + if calls.stored && it.event in old(db.events)
                                        then [Row(it.id, it.event, it.at, ok, it.attempt + 1)] else []
      ensures db.events == EventsAfter(old(db.events), db.rows, it.event, event, now, calls)
    {
      hide Insert, Closed, SameTables, ScoresFrom, EventsAfter;
      var attempt := it.attempt + 1;
      ok := calls.executed;
      ghost var s1 := AfterExecute(s, w, ok);
      if calls.stored {
        CreateRow(Row(it.id, it.event, it.at, ok, attempt), s1);
      }
      Inactivate(it, event, now, calls, AfterLog(s1, w, calls.stored), w);
    }

    /** The event is read, is there and has an action. */
    predicate CanRun(it: Item, events: map<EventId, Event>, calls: Calls) {
      calls.read.Answer? && it.event in events && events[it.event].hasAction
    }

    /** What a dispatch logs: the outcome under the next attempt number, or a failure under attempt 0 when the
        event cannot be run; nothing when the INSERT fails or the event row is gone. */
    function NewRows(it: Item, events: map<EventId, Event>, calls: Calls): seq<Row> {
      if it.event !in events then []
      else if CanRun(it, events, calls) then
        if calls.stored then [Row(it.id, it.event, it.at, calls.executed, it.attempt + 1)] else []
      else if calls.read.diagnosed then [Row(it.id, it.event, it.at, false, 0)] else []
    }

    /** The early exits: a failing read is cleaned up after; a missing event and a missing action are not. */
    method GiveUp(it: Item, read: Read, ghost s: State, ghost w: nat)
      requires Shows(s) && w in s.hands && s.hands[w] == Popped(it)
      requires read.Answer? ==> it.event !in db.events || !db.events[it.event].hasAction
      modifies client, db`rows
      ensures Shows(AfterFetch(s, w, read)) && AfterFetch(s, w, read).hands[w] == Returned(it, false)
      ensures client.queue == old(client.queue) && client.retry == old(client.retry)
      ensures var gone := if read.Error? && read.cleaned then {Key(it.event, it.at / 1_000_000_000)} else {};
              client.schedules == old(client.schedules) - gone && client.data == old(client.data) - gone
      ensures db.rows == old(db.rows) + if read.diagnosed && it.event in db.events
                                        then [Row(it.id, it.event, it.at, false, 0)] else []
    {
      hide Insert, Diagnosed, Cleaned, Working, SameTables;
      Diagnose(it, read.diagnosed, s);
      if read.Error? {
        CleanUp(it, read.cleaned, Diagnosed(s, it, read.diagnosed));
      }
    }

    method DispatchAction(it: Item, now: Instant, calls: Calls, ghost s: State, ghost w: nat) returns (ok: bool)
      requires Shows(s) && s.clock == now && w in s.hands && s.hands[w] == Popped(it)
      modifies client, db
      ensures Shows(AfterDispatch(s, w, calls)) && AfterDispatch(s, w, calls).hands[w] == Returned(it, ok)
      ensures ok <==> CanRun(it, old(db.events), calls) && calls.executed
      ensures client.queue == old(client.queue) && client.retry == old(client.retry)
      ensures var gone := if calls.read.Error? && calls.read.cleaned
                          then {Key(it.event, it.at / 1_000_000_000)} else {};
              client.schedules == old(client.schedules) - gone && client.data == old(client.data) - gone
      ensures db.rows == old(db.rows) + NewRows(it, old(db.events), calls)
      ensures db.events == if CanRun(it, old(db.events), calls)
                           then EventsAfter(old(db.events), db.rows, it.event, old(db.events)[it.event], now, calls)
                           else old(db.events)
    {
      hide Insert, AfterAction, Working, SameTables, EventsAfter, AfterFetch;
      FetchExact(s, w, calls.read);
      if calls.read.Error? || it.event !in db.events || !db.events[it.event].hasAction {
        GiveUp(it, calls.read, s, w);
        return false;
      }
      ok := RunAction(it, db.events[it.event], now, calls, AfterFetch(s, w, calls.read), w);
    }

    /** After a failed dispatch: dropped at the last attempt, and otherwise due again retryDelay later, unless the
        ZADD fails. */
    method Requeue(it: Item, now: Instant, requeued: bool, ghost s: State, ghost w: nat)
      requires Shows(s) && s.clock == now && w in s.hands && s.hands[w] == Returned(it, false)
      modifies client`retry
      ensures Shows(AfterSettle(c, s, w, requeued))
      ensures client.retry == if it.attempt + 1 < c.maxRetries && requeued
                              then old(client.retry)[it.(attempt := it.attempt + 1) :=
                                                       (now + c.retryDelay) / 1_000_000_000]
                              else old(client.retry)
    {
      hide Working, SameTables, ScoresFrom;
      if it.attempt + 1 >= c.maxRetries {
      } else {
        var again := it.(attempt := it.attempt + 1);
        if requeued {
          client.retry := client.retry[again := Unix(now + c.retryDelay)];
        }
      }
    }

    method Work(now: Instant, calls: Calls, ghost s: State, ghost w: nat) returns (popped: bool)
      requires Shows(s) && s.clock == now && w !in s.hands
      modifies client, db
      ensures popped <==> s.redis.queue != []
      ensures Shows(if popped then AfterTurn(c, s, w, calls) else s)
      ensures popped ==>
                var it := old(client.queue)[|old(client.queue)| - 1];
                var ok := CanRun(it, old(db.events), calls) && calls.executed;
                var gone := if calls.read.Error? && calls.read.cleaned
                            then {Key(it.event, it.at / 1_000_000_000)} else {};
                && client.schedules == old(client.schedules) - gone && client.data == old(client.data) - gone
                && client.queue == old(client.queue)[..|old(client.queue)| - 1]
                && client.retry == (if !ok && it.attempt + 1 < c.maxRetries && calls.requeued
                                    then old(client.retry)[it.(attempt := it.attempt + 1) :=
                                                             (now + c.retryDelay) / 1_000_000_000]
                                    else old(client.retry))
                && db.rows == old(db.rows) + NewRows(it, old(db.events), calls)
                && db.events == (if CanRun(it, old(db.events), calls)
                                 then EventsAfter(old(db.events), db.rows, it.event, old(db.events)[it.event], now,
                                                  calls)
                                 else old(db.events))
    {
      hide AfterDispatch, EventsAfter, NewRows, CanRun, Apply, Enabled, AfterSettle;
      var popped_ := client.PopForWorker();
      if popped_.None? {
        return false;
      }
      var it := popped_.value;
      PopExact(c, s, w);
      ghost var s1 := Apply(c, s, Pop(w));
      var ok := DispatchAction(it, now, calls, s1, w);
      if !ok {
        Requeue(it, now, calls.requeued, AfterDispatch(s1, w, calls), w);
      } else {
        SuccessIsKept(c, AfterDispatch(s1, w, calls), w, calls.requeued);
      }
      return true;
    }
  }
}
