/** The Postgres tables events and occurrences, the queries over them, and archive_old_data. */
module Tables {
  import opened Times
  import opened Recurrence

  type EventId = nat
  type OccurrenceId = nat

  datatype Status = Active | Inactive | Paused | Deleted

  datatype Event = Event(start: Instant, schedule: Option<Schedule>, status: Status, hasAction: bool)

  /** One logged dispatch; rows are only ever inserted or deleted, never updated. */
  datatype Row = Row(id: OccurrenceId, event: EventId, at: Instant, completed: bool, attempt: nat)

  // ---------- selecting rows ----------

  function Filter(rows: seq<Row>, p: Row -> bool): (kept: seq<Row>)
    ensures forall r :: r in kept <==> r in rows && p(r)
  {
    if rows == [] then []
    else
      assert rows == [rows[0]] + rows[1..];
      (if p(rows[0]) then [rows[0]] else []) + Filter(rows[1..], p)
  }

  lemma {:induction false} FilterPartitions(rows: seq<Row>, p: Row -> bool, q: Row -> bool)
    requires forall r :: q(r) <==> !p(r)
    ensures multiset(Filter(rows, p)) + multiset(Filter(rows, q)) == multiset(rows)
  {
    if rows != [] {
      var first, rest := rows[0], rows[1..];
      FilterPartitions(rest, p, q);
      assert rows == [first] + rest;
      var kept, left := Filter(rest, p), Filter(rest, q);
      if p(first) {
        assert Filter(rows, p) == [first] + kept && Filter(rows, q) == left;
      } else {
        assert Filter(rows, p) == kept && Filter(rows, q) == [first] + left;
      }
      hide Filter;
    }
  }

  lemma {:induction false} FilterTwice(rows: seq<Row>, p: Row -> bool, q: Row -> bool)
    requires forall r :: q(r) ==> p(r)
    ensures Filter(Filter(rows, p), q) == Filter(rows, q)
  {
    if rows != [] {
      FilterTwice(rows[1..], p, q);
      var rest := Filter(rows[1..], p);
      if p(rows[0]) {
        var kept := [rows[0]] + rest;
        assert Filter(rows, p) == kept && kept[0] == rows[0] && kept[1..] == rest;
      } else {
        assert Filter(rows, p) == rest;
      }
    }
  }

  lemma {:induction false} FilterAll(rows: seq<Row>, p: Row -> bool)
    requires forall r :: r in rows ==> p(r)
    ensures Filter(rows, p) == rows
  {
    if rows != [] {
      assert rows[0] in rows;
      assert forall r :: r in rows[1..] ==> r in rows;
      FilterAll(rows[1..], p);
    }
  }

  // ---------- the queries ----------

  /** ExistsAtTime: any row counts, whatever its status. */
  predicate ExistsAtTime(rows: seq<Row>, event: EventId, at: Instant) {
    exists r :: r in rows && r.event == event && r.at == at
  }

  predicate IsCompletedOf(event: EventId, r: Row) {
    r.event == event && r.completed
  }

  /** CountCompletedByEventID. */
  function CountCompleted(rows: seq<Row>, event: EventId): nat {
    |Filter(rows, r => IsCompletedOf(event, r))|
  }

  lemma {:induction false} FilterAppend(rows: seq<Row>, more: seq<Row>, p: Row -> bool)
    ensures Filter(rows + more, p) == Filter(rows, p) + Filter(more, p)
  {
    if rows == [] {
      assert rows + more == more;
    } else {
      assert (rows + more)[1..] == rows[1..] + more;
      FilterAppend(rows[1..], more, p);
    }
  }

  lemma CountCompletedAppend(rows: seq<Row>, r: Row, event: EventId)
    ensures CountCompleted(rows + [r], event) ==
            CountCompleted(rows, event) + if IsCompletedOf(event, r) then 1 else 0
  {
    FilterAppend(rows, [r], x => IsCompletedOf(event, x));
  }

  // ---------- archiving ----------

  predicate IsRecent(cutoff: Instant, r: Row) {
    r.at >= cutoff
  }

  function RecentRows(rows: seq<Row>, cutoff: Instant): seq<Row> {
    Filter(rows, r => IsRecent(cutoff, r))
  }

  function OldRows(rows: seq<Row>, cutoff: Instant): seq<Row> {
    Filter(rows, r => !IsRecent(cutoff, r))
  }

  predicate HasRecentRow(rows: seq<Row>, event: EventId, cutoff: Instant) {
    exists r :: r in rows && r.event == event && IsRecent(cutoff, r)
  }

  function KeptEvents(events: map<EventId, Event>, rows: seq<Row>, cutoff: Instant): map<EventId, Event> {
    map e | e in events && HasRecentRow(rows, e, cutoff) :: events[e]
  }

  /** ON DELETE CASCADE: rows whose event is gone go with it. */
  function Cascade(rows: seq<Row>, events: map<EventId, Event>): seq<Row> {
    Filter(rows, (r: Row) => r.event in events)
  }

  lemma CascadeFindsNothing(rows: seq<Row>, events: map<EventId, Event>)
    requires ForeignKey(events, rows)
    ensures Cascade(rows, events) == rows
  {
    FilterAll(rows, (r: Row) => r.event in events);
  }

  predicate ForeignKey(events: map<EventId, Event>, rows: seq<Row>) {
    forall r :: r in rows ==> r.event in events
  }

  // ---------- the queries from outside ----------

  lemma {:induction false} FilterCounts(rows: seq<Row>, p: Row -> bool, r: Row)
    ensures multiset(Filter(rows, p))[r] == if p(r) then multiset(rows)[r] else 0
  {
    if rows != [] {
      FilterCounts(rows[1..], p, r);
      assert rows == [rows[0]] + rows[1..];
    }
  }

  /** The positions of the completed rows of an event. */
  function CompletedAt(rows: seq<Row>, event: EventId): set<int> {
    set i | 0 <= i < |rows| && rows[i].event == event && rows[i].completed
  }

  /** The count is the number of rows of the event whose status is completed. */
  lemma {:induction false} CountCompletedExact(rows: seq<Row>, event: EventId)
    ensures CountCompleted(rows, event) == |CompletedAt(rows, event)|
  {
    if rows != [] {
      var n := |rows| - 1;
      CountCompletedExact(rows[..n], event);
      assert rows == rows[..n] + [rows[n]];
      CountCompletedAppend(rows[..n], rows[n], event);
      OneMoreCompleted(rows, event);
      hide CountCompleted, CompletedAt;
    }
  }

  lemma OneMoreCompleted(rows: seq<Row>, event: EventId)
    requires rows != []
    ensures var n := |rows| - 1;
            |CompletedAt(rows, event)| ==
            |CompletedAt(rows[..n], event)| + if rows[n].event == event && rows[n].completed then 1 else 0
  {
    var n := |rows| - 1;
    var front := rows[..n];
    assert forall i :: 0 <= i < n ==> front[i] == rows[i];
    var here := if rows[n].event == event && rows[n].completed then {n} else {};
    assert CompletedAt(rows, event) == CompletedAt(front, event) + here;
    assert n !in CompletedAt(front, event);
  }

  /** Retention, in terms of the rows' instants: what is recent is what was scheduled at or after the cutoff,
      every row is kept or old with its multiplicity, and an event is kept exactly for a recent row. */
  lemma RetentionExact(events: map<EventId, Event>, rows: seq<Row>, cutoff: Instant)
    ensures forall r :: multiset(RecentRows(rows, cutoff))[r] == if r.at >= cutoff then multiset(rows)[r] else 0
    ensures forall r :: multiset(OldRows(rows, cutoff))[r] == if r.at < cutoff then multiset(rows)[r] else 0
    ensures forall e :: e in KeptEvents(events, rows, cutoff) <==>
                        e in events && exists r :: r in rows && r.event == e && r.at >= cutoff
    ensures forall e :: e in KeptEvents(events, rows, cutoff) ==> KeptEvents(events, rows, cutoff)[e] == events[e]
  {
    forall r
      ensures multiset(RecentRows(rows, cutoff))[r] == if r.at >= cutoff then multiset(rows)[r] else 0
      ensures multiset(OldRows(rows, cutoff))[r] == if r.at < cutoff then multiset(rows)[r] else 0
    {
      FilterCounts(rows, x => IsRecent(cutoff, x), r);
      FilterCounts(rows, x => !IsRecent(cutoff, x), r);
    }
  }
}
