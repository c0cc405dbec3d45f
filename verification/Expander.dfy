/** The expander's scheduling loop, and the update of an event: remove its plan, expand again. */
module Expander {
  import opened Times
  import opened Recurrence
  import opened Tables
  import opened Redis
  import opened Pipeline

  /** The loop of expandRecurringEvent over its list: skip logged instants, schedule the others. */
  function PlannedAll(st: Store, rows: seq<Row>, e: EventId, ts: seq<Instant>, ids: seq<OccurrenceId>): Store
    requires |ids| == |ts|
  {
    if ts == [] then st
    else
      var n := |ts| - 1;
      var front := PlannedAll(st, rows, e, ts[..n], ids[..n]);
      if ExistsAtTime(rows, e, ts[n]) then front else Scheduled(front, Item(ids[n], e, ts[n], 0))
  }

  /** expandRecurringEvent; an interval below 1, which the handlers refuse, would not stop. An unknown
      frequency or an unreadable until is reported, and then nothing is scheduled. */
  method ExpandRecurringEvent(client: Client, rows: seq<Row>, c: Config, e: EventId, ev: Event, now: Instant,
                              ids: seq<OccurrenceId>) returns (ok: bool)
    requires ev.schedule.Some? && ev.schedule.value.interval >= 1
    requires Expandable(ev) ==> |ids| == |PlanOf(c, ev, now)|
    modifies client
    ensures ok <==> Expandable(ev)
    ensures client.View() ==
            if ok then PlannedAll(old(client.View()), rows, e, PlanOf(c, ev, now), ids) else old(client.View())
    ensures ok ==> forall k :: k in client.data ==>
                     (k in old(client.data) && client.data[k] == old(client.data)[k]) ||
                     IsNewEntry(client.View(), rows, e, PlanOf(c, ev, now), ids, k)
  {
    hide Scheduled, ExistsAtTime, Truncated, BeforeUntil, PlanOf, Occurrences;
    ghost var before := client.View();
    var found := FilterOccurrences(c, ev, now);
    if found.None? {
      return false;
    }
    var ts := found.value;
    for i := 0 to |ts|
      invariant client.View() == PlannedAll(before, rows, e, ts[..i], ids[..i])
    {
      assert ts[..i + 1][..i] == ts[..i] && ids[..i + 1][..i] == ids[..i];
      if !ExistsAtTime(rows, e, ts[i]) {
        client.ScheduleEvent(Item(ids[i], e, ts[i], 0));
      }
    }
    assert ts[..|ts|] == ts && ids[..|ts|] == ids;
    PlannedEntries(before, rows, e, ts, ids);
    hide IsNewEntry, PlannedAll;
    return true;
  }

  /** A one-time event: both ends of the window count, and no row is looked up. */
  method ExpandNonRecurringEvent(client: Client, c: Config, e: EventId, ev: Event, now: Instant, id: OccurrenceId)
    modifies client
    ensures client.View() ==
            if now - c.gracePeriod <= ev.start <= now + c.lookAhead
            then Scheduled(old(client.View()), Item(id, e, ev.start, 0)) else old(client.View())
    ensures var k := Key(e, ev.start / 1_000_000_000);
            if now - c.gracePeriod <= ev.start <= now + c.lookAhead && k !in old(client.data) then
              client.data == old(client.data)[k := Item(id, e, ev.start, 0)] &&
              client.schedules == old(client.schedules)[k := k.second]
            else client.data == old(client.data) && client.schedules == old(client.schedules)
  {
    var graceStart, endTime := now - c.gracePeriod, now + c.lookAhead;
    if ev.start > endTime {
      return;
    }
    if ev.start < graceStart {
      return;
    }
    client.ScheduleEvent(Item(id, e, ev.start, 0));
  }

  /** The loop that filters by Until. */
  method KeepBefore(all: seq<Instant>, bound: Instant) returns (filtered: seq<Instant>)
    ensures filtered == BeforeUntil(all, bound)
  {
    filtered := [];
    for i := 0 to |all|
      invariant filtered + BeforeUntil(all[i..], bound) == BeforeUntil(all, bound)
    {
      assert all[i..][1..] == all[i + 1..];
      if all[i] < bound {
        filtered := filtered + [all[i]];
      }
    }
    assert all[|all|..] == [];
  }

  /** The list: all occurrences in the window, truncated to Count, filtered by Until. */
  method FilterOccurrences(c: Config, ev: Event, now: Instant) returns (occurrences: Option<seq<Instant>>)
    requires ev.schedule.Some? && ev.schedule.value.interval >= 1
    ensures occurrences == if Expandable(ev) then Some(PlanOf(c, ev, now)) else None
  {
    hide Occurrences, Truncated;
    var sch := ev.schedule.value;
    if sch.frequency.Unknown? {
      return None;
    }
    var all := CollectOccurrences(sch, ev.start, now - c.gracePeriod, now + c.lookAhead);
    all := Truncated(all, sch.count);
    match sch.until {
      case Malformed =>
        return None;
      case Never =>
        return Some(all);
      case Before(bound) =>
        var filtered := KeepBefore(all, bound);
        return Some(filtered);
    }
  }

  // ---------- an update replaces the plan ----------

  ghost predicate Consistent(st: Store) {
    forall k :: k in st.data ==> k == KeyOf(st.data[k]) && k in st.schedules
  }

  ghost predicate IsPlanned(rows: seq<Row>, e: EventId, ts: seq<Instant>, k: Key) {
    exists t :: t in ts && !ExistsAtTime(rows, e, t) && k == KeyFor(e, t)
  }

  /** The entry under k is a first attempt of a listed instant without a row, scored with its second. */
  ghost predicate IsNewEntry(st: Store, rows: seq<Row>, e: EventId, ts: seq<Instant>, ids: seq<OccurrenceId>, k: Key) {
    && k in st.data && k in st.schedules && st.schedules[k] == k.second
    && st.data[k].event == e && st.data[k].attempt == 0 && st.data[k].id in ids
    && st.data[k].at in ts && !ExistsAtTime(rows, e, st.data[k].at)
    && k == Key(e, st.data[k].at / 1_000_000_000)
  }

  /** Everything of other events, the dispatch queue and the retry set are as they were. */
  ghost predicate OthersKept(st: Store, st': Store, e: EventId) {
    && st'.queue == st.queue && st'.retry == st.retry
    && (forall k: Key :: k.event != e ==>
          (k in st'.data <==> k in st.data) && (k in st.data ==> st'.data[k] == st.data[k]) &&
          (k in st'.schedules <==> k in st.schedules) &&
          (k in st.schedules ==> st'.schedules[k] == st.schedules[k]))
  }

  lemma {:induction false} PlanningEffect(st: Store, rows: seq<Row>, e: EventId, ts: seq<Instant>,
                                          ids: seq<OccurrenceId>)
    requires |ids| == |ts| && Consistent(st)
    ensures var st' := PlannedAll(st, rows, e, ts, ids);
            && Consistent(st') && OthersKept(st, st', e)
            && forall k: Key :: k.event == e ==> (k in st'.data <==> k in st.data || IsPlanned(rows, e, ts, k))
  {
    hide ExistsAtTime, Unix;
    if ts != [] {
      var n := |ts| - 1;
      PlanningEffect(st, rows, e, ts[..n], ids[..n]);
      assert ts == ts[..n] + [ts[n]];
    }
  }

  lemma NewEntryStays(st: Store, st': Store, rows: seq<Row>, e: EventId, ts: seq<Instant>, ids: seq<OccurrenceId>,
                      t: Instant, id: OccurrenceId, k: Key)
    requires IsNewEntry(st, rows, e, ts, ids, k)
    requires k in st'.data && st'.data[k] == st.data[k] && k in st'.schedules && st'.schedules[k] == st.schedules[k]
    ensures IsNewEntry(st', rows, e, ts + [t], ids + [id], k)
  {
    hide ExistsAtTime;
  }

  /** Entries that were there stay as they are, and every new one is of a listed instant. */
  lemma {:induction false} PlannedEntries(st: Store, rows: seq<Row>, e: EventId, ts: seq<Instant>,
                                          ids: seq<OccurrenceId>)
    requires |ids| == |ts|
    ensures var st' := PlannedAll(st, rows, e, ts, ids);
            forall k :: k in st'.data ==>
              (k in st.data && st'.data[k] == st.data[k]) || IsNewEntry(st', rows, e, ts, ids, k)
    ensures forall k :: k in st.data ==> k in PlannedAll(st, rows, e, ts, ids).data
  {
    if ts != [] {
      var n := |ts| - 1;
      var front := PlannedAll(st, rows, e, ts[..n], ids[..n]);
      var st' := PlannedAll(st, rows, e, ts, ids);
      PlannedEntries(st, rows, e, ts[..n], ids[..n]);
      assert ts == ts[..n] + [ts[n]] && ids == ids[..n] + [ids[n]];
      forall k | k in st'.data
        ensures (k in st.data && st'.data[k] == st.data[k]) || IsNewEntry(st', rows, e, ts, ids, k)
      {
        if k in front.data {
          OldEntryStays(front, Item(ids[n], e, ts[n], 0), k);
          if IsNewEntry(front, rows, e, ts[..n], ids[..n], k) {
            NewEntryStays(front, st', rows, e, ts[..n], ids[..n], ts[n], ids[n], k);
          }
        }
      }
    }
  }

  lemma OldEntryStays(st: Store, it: Item, k: Key)
    requires k in st.data
    ensures var st' := Scheduled(st, it);
            && k in st'.data && st'.data[k] == st.data[k]
            && (k in st.schedules ==> k in st'.schedules && st'.schedules[k] == st.schedules[k])
  {
  }

  lemma RemovalEmpties(st: Store, e: EventId, keys: seq<Key>)
    requires Consistent(st) && forall k :: k in st.schedules ==> k in keys
    ensures forall k: Key :: k.event == e ==> k !in RemovedAll(st, e, keys).data
  {
    RemovalKeepsOthers(st, e, keys);
    hide RemovedAll, OthersKept;
  }

  lemma RemovalKeepsOthers(st: Store, e: EventId, keys: seq<Key>)
    requires Consistent(st) && forall k :: k in st.schedules ==> k in keys
    ensures var st' := RemovedAll(st, e, keys);
            && Consistent(st') && OthersKept(st, st', e)
            && forall k: Key :: k.event == e ==> k !in st'.data
  {
    RemovalEffect(st, e, keys);
  }

  /** After remove-then-expand, the pending keys of the event are exactly its new list without the
      instants that already have a row; nothing of any other event changes. */
  lemma UpdateReplacesPlan(st: Store, rows: seq<Row>, e: EventId, keys: seq<Key>, ts: seq<Instant>,
                           ids: seq<OccurrenceId>)
    requires |ids| == |ts| && Consistent(st) && forall k :: k in st.schedules ==> k in keys
    ensures var st' := PlannedAll(RemovedAll(st, e, keys), rows, e, ts, ids);
            && Consistent(st') && OthersKept(st, st', e)
            && forall k: Key :: k.event == e ==> (k in st'.data <==> IsPlanned(rows, e, ts, k))
  {
    RemovalKeepsOthers(st, e, keys);
    PlanningEffect(RemovedAll(st, e, keys), rows, e, ts, ids);
    hide RemovedAll, PlannedAll, IsPlanned;
  }

  /** What an update plans anew: a one-time event's start if it is in the closed window, whatever the log
      says; a recurring event's list without the instants that have a row; nothing if the schedule cannot
      be read. */
  ghost predicate IsReplanned(rows: seq<Row>, c: Config, e: EventId, ev: Event, now: Instant, k: Key) {
    if ev.schedule.None? then
      k == KeyFor(e, ev.start) && now - c.gracePeriod <= ev.start <= now + c.lookAhead
    else Expandable(ev) && IsPlanned(rows, e, PlanOf(c, ev, now), k)
  }

  lemma OnceReplacesPlan(st: Store, c: Config, e: EventId, ev: Event, now: Instant, keys: seq<Key>, id: OccurrenceId)
    requires Consistent(st) && (forall k :: k in st.schedules ==> k in keys)
    ensures var removed := RemovedAll(st, e, keys);
            var st' := if now - c.gracePeriod <= ev.start <= now + c.lookAhead
                       then Scheduled(removed, Item(id, e, ev.start, 0)) else removed;
            && Consistent(st') && OthersKept(st, st', e)
            && forall k: Key :: k.event == e ==>
                 (k in st'.data <==> k == KeyFor(e, ev.start) && now - c.gracePeriod <= ev.start <= now + c.lookAhead)
  {
    RemovalKeepsOthers(st, e, keys);
    hide RemovedAll, Unix;
  }

  /** The Redis part of UpdateEvent, for one-time and recurring events; keys is what ZRANGE 0 -1 answers,
      and ids are the new occurrence ids. */
  method ReplanUpdatedEvent(client: Client, rows: seq<Row>, c: Config, e: EventId, ev: Event, now: Instant,
                            keys: seq<Key>, ids: seq<OccurrenceId>)
    requires ev.schedule.Some? ==> ev.schedule.value.interval >= 1
    requires ev.schedule.None? ==> ids != []
    requires Expandable(ev) ==> |ids| == |PlanOf(c, ev, now)|
    requires Consistent(client.View()) && forall k :: k in client.schedules <==> k in keys
    modifies client
    ensures Consistent(client.View()) && OthersKept(old(client.View()), client.View(), e)
    ensures forall k: Key :: k.event == e ==> (k in client.data <==> IsReplanned(rows, c, e, ev, now, k))
    ensures forall k: Key :: k.event == e && k in client.data ==>
              if ev.schedule.None? then client.data[k] == Item(ids[0], e, ev.start, 0)
              else Expandable(ev) && IsNewEntry(client.View(), rows, e, PlanOf(c, ev, now), ids, k)
  {
    ghost var before := client.View();
    hide PlanOf, IsPlanned, OthersKept, Consistent, RemovedAll, PlannedAll, Scheduled, IsNewEntry;
    client.RemoveEventOccurrences(e, keys);
    RemovalEmpties(before, e, keys);
    if ev.schedule.None? {
      OnceReplacesPlan(before, c, e, ev, now, keys, ids[0]);
      ExpandNonRecurringEvent(client, c, e, ev, now, ids[0]);
    } else {
      RemovalKeepsOthers(before, e, keys);
      if Expandable(ev) {
        UpdateReplacesPlan(before, rows, e, keys, PlanOf(c, ev, now), ids);
      }
      var ok := ExpandRecurringEvent(client, rows, c, e, ev, now, ids);
    }
  }

  /** UpdateEvent's treatment of a new start: it is stored first, and then compared with itself, so the
      check against the past never answers 400. */
  method ReplaceStart(ev: Event, start: Option<Instant>, now: Instant) returns (updated: Event, refused: bool)
    ensures updated == if start.Some? then ev.(start := start.value) else ev
    ensures !refused
  {
    updated, refused := ev, false;
    if start.Some? {
      updated := updated.(start := start.value);
    }
    if start.Some? {
      var oldStart := updated.start;
      var isPast := start.value < now;
      refused := oldStart != start.value && isPast;
    }
  }

  // ---------- the scripts are runs of the state machine ----------

  /** The due-mover script is a run of Move steps at one clock reading. */
  lemma {:induction false} MoverIsRun(c: Config, s: State, keys: seq<Key>) returns (steps: seq<Step>)
    requires Distinct(keys)
    requires forall k :: k in keys ==> k in s.redis.schedules && 0 <= s.redis.schedules[k] <= Unix(s.clock)
    ensures Run(c, s, steps) && forall x :: x in steps ==> x.Move?
    ensures Final(c, s, steps).redis == MovedAll(s.redis, keys) && Final(c, s, steps).clock == s.clock
  {
    if keys == [] {
      return [];
    }
    var front, last := keys[..|keys| - 1], keys[|keys| - 1];
    assert keys == front + [last];
    steps := MoverIsRun(c, s, front);
    MoverEffect(s.redis, front);
    var s1 := Final(c, s, steps);
    if last in s1.redis.data {
      assert last !in front;
      RunSnoc(c, s, steps, Move(last));
      steps := steps + [Move(last)];
    }
  }

  /** So is the retry poller's script, of Poll steps. */
  lemma {:induction false} PollerIsRun(c: Config, s: State, due: seq<Item>) returns (steps: seq<Step>)
    requires Distinct(due)
    requires forall it :: it in due ==> it in s.redis.retry && s.redis.retry[it] <= Unix(s.clock)
    ensures Run(c, s, steps) && forall x :: x in steps ==> x.Poll?
    ensures Final(c, s, steps).redis == PolledAll(s.redis, due) && Final(c, s, steps).clock == s.clock
  {
    if due == [] {
      return [];
    }
    var front, last := due[..|due| - 1], due[|due| - 1];
    assert due == front + [last];
    steps := PollerIsRun(c, s, front);
    PollerEffect(s.redis, front);
    assert last !in front;
    hide Run, Final;
    RunSnoc(c, s, steps, Poll(last));
    steps := steps + [Poll(last)];
  }

  // ---------- so are the expansions ----------

  ghost predicate Unissued(s: State, ids: seq<OccurrenceId>) {
    Distinct(ids) && forall id :: id in ids ==> id !in s.issued
  }

  /** The head of a list gone through undisturbed. */
  function AfterHead(s: State, j: nat, id: OccurrenceId): State
    requires HasHead(s, j)
  {
    var job := s.jobs[j];
    if ExistsAtTime(s.rows, job.event, job.todo[0]) || KeyFor(job.event, job.todo[0]) in s.redis.data
    then WithJob(s, j, NextHead(job))
    else
      s.(redis := Written(s.redis, HeadItem(s, j, id)), issued := s.issued + {id}, jobs := s.jobs[j := NextHead(job)])
  }

  /** The three calls for the head, or as many as it takes. */
  function HeadSteps(s: State, j: nat, id: OccurrenceId): seq<Step>
    requires HasHead(s, j)
  {
    if ExistsAtTime(s.rows, s.jobs[j].event, s.jobs[j].todo[0]) then [Look(j, true)]
    else if KeyOf(HeadItem(s, j, id)) in s.redis.data then [Look(j, true)] + [Ask(j, true)]
    else [Look(j, true)] + [Ask(j, true)] + [Plan(j, id, Stored)]
  }

  lemma LookedIsRun(c: Config, s: State, j: nat)
    requires HasHead(s, j) && s.jobs[j].phase.Looking?
    ensures Run(c, s, [Look(j, true)]) && Final(c, s, [Look(j, true)]) == AfterLook(s, j, true)
  {
    hide Run, Final, AfterLook, ExistsAtTime;
    NoSteps(c, s);
    Then(c, s, [], Look(j, true), AfterLook(s, j, true));
    assert [] + [Look(j, true)] == [Look(j, true)];
  }

  lemma WrittenIsRun(c: Config, s: State, j: nat, id: OccurrenceId)
    requires HasHead(s, j) && s.jobs[j].phase.Asking? && id !in s.issued
    requires KeyFor(s.jobs[j].event, s.jobs[j].todo[0]) !in s.redis.data
    ensures Run(c, s, [Ask(j, true)] + [Plan(j, id, Stored)])
    ensures Final(c, s, [Ask(j, true)] + [Plan(j, id, Stored)]) ==
            s.(redis := Written(s.redis, HeadItem(s, j, id)), issued := s.issued + {id},
               jobs := s.jobs[j := NextHead(s.jobs[j])])
  {
    hide Run, Final, KeyFor, Enabled, Apply, Written;
    NoSteps(c, s);
    AskGoesOn(c, s, j);
    var s1 := Apply(c, s, Ask(j, true));
    Then(c, s, [], Ask(j, true), s1);
    assert [] + [Ask(j, true)] == [Ask(j, true)];
    PlanGoesOn(c, s1, j, id);
    Then(c, s, [Ask(j, true)], Plan(j, id, Stored), Apply(c, s1, Plan(j, id, Stored)));
    assert s.jobs[j := s.jobs[j].(phase := Storing)][j := NextHead(s.jobs[j])] == s.jobs[j := NextHead(s.jobs[j])];
  }

  lemma HeadIsRun(c: Config, s: State, j: nat, id: OccurrenceId)
    requires HasHead(s, j) && s.jobs[j].phase.Looking? && id !in s.issued
    ensures Run(c, s, HeadSteps(s, j, id)) && Final(c, s, HeadSteps(s, j, id)) == AfterHead(s, j, id)
  {
    var job := s.jobs[j];
    LookedIsRun(c, s, j);
    hide Run, Final, KeyFor, ExistsAtTime, Enabled, Apply, Written;
    if !ExistsAtTime(s.rows, job.event, job.todo[0]) {
      var s1 := WithJob(s, j, job.(phase := Asking));
      assert s1.jobs[j := NextHead(job)] == s.jobs[j := NextHead(job)];
      if KeyFor(job.event, job.todo[0]) in s.redis.data {
        AskSkips(c, s1, j);
        Then(c, s, [Look(j, true)], Ask(j, true), Apply(c, s1, Ask(j, true)));
      } else {
        WrittenIsRun(c, s1, j, id);
        RunAppend(c, s, [Look(j, true)], [Ask(j, true)] + [Plan(j, id, Stored)]);
        assert [Look(j, true)] + ([Ask(j, true)] + [Plan(j, id, Stored)]) == HeadSteps(s, j, id);
      }
    }
  }

  /** The list gone through undisturbed: instants with a row or an entry are skipped. */
  function PlannedState(s: State, e: EventId, ts: seq<Instant>, ids: seq<OccurrenceId>): (s': State)
    requires |ids| == |ts|
    ensures s' == s.(redis := s'.redis, issued := s'.issued)
  {
    if ts == [] then s
    else
      var n := |ts| - 1;
      var front := PlannedState(s, e, ts[..n], ids[..n]);
      if ExistsAtTime(s.rows, e, ts[n]) || KeyFor(e, ts[n]) in front.redis.data then front
      else front.(redis := Written(front.redis, Item(ids[n], e, ts[n], 0)), issued := front.issued + {ids[n]})
  }

  lemma {:induction false} PlannedStateRedis(s: State, e: EventId, ts: seq<Instant>, ids: seq<OccurrenceId>)
    requires |ids| == |ts|
    ensures PlannedState(s, e, ts, ids).redis == PlannedAll(s.redis, s.rows, e, ts, ids)
    ensures PlannedState(s, e, ts, ids).issued <= s.issued + (set id | id in ids)
  {
    hide ExistsAtTime, KeyFor, Written;
    if ts != [] {
      var n := |ts| - 1;
      PlannedStateRedis(s, e, ts[..n], ids[..n]);
      assert ids == ids[..n] + [ids[n]];
    }
  }

  /** The state of an expansion that has gone through the first n instants of its list. */
  function Reached(s: State, j: nat, ids: seq<OccurrenceId>, n: nat): State
    requires j in s.jobs && n <= |s.jobs[j].todo| == |ids|
  {
    var job := s.jobs[j];
    PlannedState(s, job.event, job.todo[..n], ids[..n]).(jobs := s.jobs[j := job.(todo := job.todo[n..])])
  }

  lemma NothingReached(s: State, j: nat, ids: seq<OccurrenceId>)
    requires j in s.jobs && |s.jobs[j].todo| == |ids|
    ensures Reached(s, j, ids, 0) == s
  {
    assert s.jobs[j].todo[0..] == s.jobs[j].todo && s.jobs[j := s.jobs[j]] == s.jobs;
  }

  lemma OneMoreReached(s: State, j: nat, ids: seq<OccurrenceId>, n: nat)
    requires j in s.jobs && s.jobs[j].phase.Looking? && n < |s.jobs[j].todo| == |ids|
    ensures HasHead(Reached(s, j, ids, n), j) && Reached(s, j, ids, n).jobs[j].phase.Looking?
    ensures AfterHead(Reached(s, j, ids, n), j, ids[n]) == Reached(s, j, ids, n + 1)
  {
    hide ExistsAtTime, Written, KeyFor;
    var todo := s.jobs[j].todo;
    assert todo[..n + 1][..n] == todo[..n] && ids[..n + 1][..n] == ids[..n];
    assert todo[n..][1..] == todo[n + 1..];
    var job := s.jobs[j];
    assert s.jobs[j := job.(todo := todo[n..])][j := job.(todo := todo[n + 1..])] ==
           s.jobs[j := job.(todo := todo[n + 1..])];
  }

  lemma StillUnissued(s: State, j: nat, ids: seq<OccurrenceId>, n: nat)
    requires j in s.jobs && n < |s.jobs[j].todo| == |ids| && Unissued(s, ids)
    ensures ids[n] !in Reached(s, j, ids, n).issued
  {
    PlannedStateRedis(s, s.jobs[j].event, s.jobs[j].todo[..n], ids[..n]);
    hide PlannedState;
    assert ids[n] in ids;
    assert forall i :: 0 <= i < n ==> ids[i] != ids[n];
  }

  lemma {:induction false} LoopIsRun(c: Config, s: State, j: nat, ids: seq<OccurrenceId>, n: nat)
    returns (steps: seq<Step>)
    requires j in s.jobs && s.jobs[j].phase.Looking? && n <= |s.jobs[j].todo| == |ids| && Unissued(s, ids)
    ensures Run(c, s, steps) && Final(c, s, steps) == Reached(s, j, ids, n)
  {
    hide Reached, Run, Final, HeadSteps, AfterHead, Unissued;
    if n == 0 {
      NothingReached(s, j, ids);
      NoSteps(c, s);
      return [];
    }
    steps := LoopIsRun(c, s, j, ids, n - 1);
    OneMoreReached(s, j, ids, n - 1);
    StillUnissued(s, j, ids, n - 1);
    var s1 := Reached(s, j, ids, n - 1);
    HeadIsRun(c, s1, j, ids[n - 1]);
    RunAppend(c, s, steps, HeadSteps(s1, j, ids[n - 1]));
    steps := steps + HeadSteps(s1, j, ids[n - 1]);
  }

  /** The state after an expansion of e with nothing in between. */
  function Expanded(c: Config, s: State, e: EventId, ids: seq<OccurrenceId>): State
    requires e in s.events && Expandable(s.events[e]) && |ids| == |PlanOf(c, s.events[e], s.clock)|
  {
    PlannedState(s, e, PlanOf(c, s.events[e], s.clock), ids).(
      reached := s.reached[e := Extended(c, s, Job(e, s.clock, [], Looking))])
  }

  /** An expansion with nothing in between is a run from Begin to Finish. */
  lemma ExpansionIsRun(c: Config, s: State, j: nat, e: EventId, ids: seq<OccurrenceId>) returns (steps: seq<Step>)
    requires Enabled(c, s, Begin(j, e)) && |ids| == |PlanOf(c, s.events[e], s.clock)| && Unissued(s, ids)
    ensures Run(c, s, steps) && Final(c, s, steps) == Expanded(c, s, e, ids)
    ensures Final(c, s, steps).redis == PlannedAll(s.redis, s.rows, e, PlanOf(c, s.events[e], s.clock), ids)
    ensures var s' := Final(c, s, steps); s'.jobs == s.jobs && s'.moved == s.moved && s'.rows == s.rows
  {
    var todo := PlanOf(c, s.events[e], s.clock);
    var s1 := WithJob(s, j, Job(e, s.clock, todo, Looking));
    NoSteps(c, s);
    Then(c, s, [], Begin(j, e), s1);
    assert [] + [Begin(j, e)] == [Begin(j, e)];
    hide PlanOf, PlannedAll, PlannedState, Run, Final, Enabled, Apply;
    var loop := LoopIsRun(c, s1, j, ids, |todo|);
    RunAppend(c, s, [Begin(j, e)], loop);
    LoopEnds(s, j, e, todo, ids);
    PlannedStateRedis(s, e, todo, ids);
    var s2 := PlannedState(s, e, todo, ids).(jobs := s.jobs[j := Job(e, s.clock, [], Looking)]);
    LastIsFinish(c, s, s2, j, e);
    Then(c, s, [Begin(j, e)] + loop, Finish(j), Apply(c, s2, Finish(j)));
    steps := [Begin(j, e)] + loop + [Finish(j)];
  }

  lemma LoopEnds(s: State, j: nat, e: EventId, todo: seq<Instant>, ids: seq<OccurrenceId>)
    requires |ids| == |todo|
    ensures Reached(WithJob(s, j, Job(e, s.clock, todo, Looking)), j, ids, |todo|) ==
            PlannedState(s, e, todo, ids).(jobs := s.jobs[j := Job(e, s.clock, [], Looking)])
  {
    var s1 := WithJob(s, j, Job(e, s.clock, todo, Looking));
    assert todo[..|todo|] == todo && ids[..|todo|] == ids && todo[|todo|..] == [];
    JobsAside(s, s1, e, todo, ids);
    hide PlannedState;
    assert s1.jobs[j := Job(e, s.clock, [], Looking)] == s.jobs[j := Job(e, s.clock, [], Looking)];
  }

  lemma LastIsFinish(c: Config, s: State, s2: State, j: nat, e: EventId)
    requires j !in s.jobs && s2.reached == s.reached && s2.jobs == s.jobs[j := Job(e, s.clock, [], Looking)]
    ensures Enabled(c, s2, Finish(j))
    ensures Apply(c, s2, Finish(j)) ==
            s2.(jobs := s.jobs, reached := s.reached[e := Extended(c, s, Job(e, s.clock, [], Looking))])
  {
    assert s2.jobs - {j} == s.jobs;
  }

  lemma {:induction false} JobsAside(s: State, s1: State, e: EventId, ts: seq<Instant>, ids: seq<OccurrenceId>)
    requires |ids| == |ts| && s1 == s.(jobs := s1.jobs)
    ensures PlannedState(s1, e, ts, ids) == PlannedState(s, e, ts, ids).(jobs := s1.jobs)
  {
    hide ExistsAtTime, KeyFor, Written;
    if ts != [] {
      JobsAside(s, s1, e, ts[..|ts| - 1], ids[..|ts| - 1]);
    }
  }
}
